/** When a row that failed is tried again: not before its time, and from then on. */
module OutboxWaiting {
  import opened BatchTypes
  import opened LatestOnly
  import opened OutboxSteps
  import opened OutboxSafety
  import opened OutboxDrain
  import opened OutboxParking
  import opened OutboxRelay
  import opened Backoff

  ghost predicate WaitsFor(s: System, id: nat, at: Option<int>) {
    id in s.rows && s.rows[id].state == Pending && s.rows[id].nextAttemptAt == at
  }

  /** The step takes the row away from the others. */
  predicate Takes(step: Step, id: nat) {
    (step.Claim? || step.DrainClaim?) && id in step.ids
  }

  /** A relay that had the row in hand writes it. */
  ghost predicate Settles(s: System, step: Step, id: nat) {
    match step
    case Revert(relay, k, written, _) =>
      written && WorkOf(s, relay).Settling? && k < |WorkOf(s, relay).failed| && WorkOf(s, relay).failed[k].event.id == id
    case Close(relay, written) => written && WorkOf(s, relay).Settling? && id in Ids(WorkOf(s, relay).published)
    case DrainCommit(relay, _) => WorkOf(s, relay).Draining? && id in Ids(WorkOf(s, relay).drained)
    case _ => false
  }

  lemma StepWaits(cfg: Config, s: System, step: Step, id: nat, at: Option<int>)
    requires WaitsFor(s, id, at) && RowsKnown(s) && LocksHold(s) && Enabled(cfg, s, step)
    requires !Settles(s, step, id) && !(step.Claim? && Takes(step, id))
    ensures WaitsFor(Apply(cfg, s, step), id, at)
  {
    hide LocksHold;
    if step.DrainCommit? {
      OtherDrainWaits(cfg, s, step, id);
    } else {
      hide Stored, OutcomesOf, Failed, Published, Reverted, Locked;
    }
  }

  lemma OtherDrainWaits(cfg: Config, s: System, step: Step, id: nat)
    requires LocksHold(s) && Enabled(cfg, s, step) && step.DrainCommit? && !Settles(s, step, id) && id in s.rows
    ensures var t := Apply(cfg, s, step); id in t.rows && t.rows[id] == s.rows[id]
  {
    hide Published, FailureOf, Restored;
    var w := WorkOf(s, step.relay);
    assert Unchanged(s, w);
    OutcomeIds(w);
  }

  /** From the n-th step on nobody who had the row in hand writes it, and nobody but a drain claims it. */
  ghost predicate LeftAlone(cfg: Config, steps: seq<Step>, n: nat, id: nat) {
    forall m :: n <= m < |steps| ==> !Settles(Run(cfg, steps[..m]), steps[m], id) && !(steps[m].Claim? && Takes(steps[m], id))
  }

  lemma RunStep(cfg: Config, steps: seq<Step>)
    requires steps != []
    ensures var s, last := Run(cfg, steps[..|steps| - 1]), steps[|steps| - 1];
      Run(cfg, steps) == if Enabled(cfg, s, last) then Apply(cfg, s, last) else s
  {
    hide Enabled, Apply;
  }

  lemma LeftAloneBefore(cfg: Config, steps: seq<Step>, n: nat, id: nat)
    requires n < |steps| && LeftAlone(cfg, steps, n, id)
    ensures var init, last := steps[..|steps| - 1], steps[|steps| - 1];
      LeftAlone(cfg, init, n, id) && !Settles(Run(cfg, init), last, id) && !(last.Claim? && Takes(last, id))
  {
    hide Run, Settles, Takes;
    var init := steps[..|steps| - 1];
    forall m | n <= m < |init| ensures !Settles(Run(cfg, init[..m]), init[m], id) && !(init[m].Claim? && Takes(init[m], id)) {
      assert init[..m] == steps[..m] && init[m] == steps[m];
    }
  }

  lemma {:induction false} RunWaits(cfg: Config, steps: seq<Step>, n: nat, id: nat, at: Option<int>)
    requires n <= |steps| && WaitsFor(Run(cfg, steps[..n]), id, at) && LeftAlone(cfg, steps, n, id)
    ensures WaitsFor(Run(cfg, steps), id, at)
  {
    hide Enabled, Apply, Settles, WaitsFor, Safe, LocksHold, Takes, LeftAlone, Run, RowsKnown;
    if n == |steps| {
      assert steps[..n] == steps;
    } else {
      var init := steps[..|steps| - 1];
      assert init[..n] == steps[..n];
      LeftAloneBefore(cfg, steps, n, id);
      RunStep(cfg, steps);
      RunWaits(cfg, init, n, id, at);
      RunSafe(cfg, init);
      RunLocks(cfg, init);
      SafeKnows(cfg, Run(cfg, init));
      if Enabled(cfg, Run(cfg, init), steps[|init|]) {
        StepWaits(cfg, Run(cfg, init), steps[|init|], id, at);
      }
    }
  }

  lemma SafeKnows(cfg: Config, s: System)
    requires Safe(cfg, s)
    ensures RowsKnown(s)
  {
  }

  /** Claims of a waiting row are possible from its time on, and only then. */
  lemma TakenFromThenOn(cfg: Config, s: System, id: nat, at: Option<int>, relay: nat, now: int)
    requires WaitsFor(s, id, at) && WorkOf(s, relay).Idle? && !Locked(s, id)
    ensures Enabled(cfg, s, DrainClaim(relay, [id], now)) <==> at.None? || at.value <= now
    ensures forall stalled: bool :: Enabled(cfg, s, Claim(relay, [id], now, stalled)) <==> at.None? || at.value <= now
  {
    hide Locked;
    assert [id][0] == id;
  }

  lemma NeverTakenBefore(cfg: Config, s: System, id: nat, at: Option<int>, step: Step)
    requires WaitsFor(s, id, at) && Enabled(cfg, s, step) && Takes(step, id)
    ensures at.Some? ==> step.now >= at.value
  {
    hide Locked;
    var k :| 0 <= k < |step.ids| && step.ids[k] == id;
  }

  /** The failure that a Revert writes, and the row it finds. */
  ghost predicate Records(cfg: Config, s: System, step: Step, o: Outcome) {
    && step.Revert? && step.written && Enabled(cfg, s, step) && o.event.id in s.rows
    && step.k < |WorkOf(s, step.relay).failed| && o == WorkOf(s, step.relay).failed[step.k]
  }

  lemma RecordedRow(cfg: Config, s: System, step: Step, o: Outcome)
    requires Records(cfg, s, step, o) && Parking(cfg, s)
    ensures var id := o.event.id;
      var row, t := s.rows[id], Apply(cfg, s, step);
      && o.err.Some? && id in t.rows && t.rows[id].lastError == o.err && t.rows[id].topic == row.topic
          && t.rows[id].version == row.version
      && (o.err.value.cause == Transport ==> t.rows[id].attempts == o.event.attempts && WaitsFor(t, id, None))
      && (o.err.value.cause != Transport ==>
            && t.rows[id].attempts == o.event.attempts + 1
            && (if cfg.maxAttempts > 0 && o.event.attempts + 1 >= cfg.maxAttempts then t.rows[id].state == Parked
                else WaitsFor(t, id, Some(step.at))))
  {
    hide Locked, Enabled;
    var w := WorkOf(s, step.relay);
    NotExhausted(cfg, s, step);
    assert w.failed[step.k] == o;
  }

  lemma NotExhausted(cfg: Config, s: System, step: Step)
    requires step.Revert? && Enabled(cfg, s, step) && Parking(cfg, s)
    ensures var w := WorkOf(s, step.relay);
      w.Settling? && step.k < |w.failed| && w.failed[step.k].err.Some? && !Exhausted(cfg, w.failed[step.k].event.attempts)
  {
    hide Locked;
    var w := WorkOf(s, step.relay);
    assert WorkBelow(cfg, w);
    assert EventsOf(w.failed)[step.k] in HeldBy(w);
  }

  /** A failed row waits its time. After step n recorded a counted failure with a time and did not park the row, and while no
      other relay that had the row in hand writes it, the row is pending; the first step that takes it comes no earlier. */
  lemma FailedRowWaits(cfg: Config, steps: seq<Step>, n: nat, o: Outcome)
    requires n < |steps| && Records(cfg, Run(cfg, steps[..n]), steps[n], o) && o.err.value.cause != Transport
    requires cfg.maxAttempts <= 0 || o.event.attempts + 1 < cfg.maxAttempts
    requires LeftAlone(cfg, steps, n + 1, o.event.id)
    ensures var v, id := Run(cfg, steps), o.event.id;
      && WaitsFor(v, id, Some(steps[n].at))
      && (forall step :: Enabled(cfg, v, step) && Takes(step, id) ==> step.now >= steps[n].at)
      && forall now: int :: Due(v.rows[id], now) <==> now >= steps[n].at
  {
    hide Enabled, Apply, LeftAlone, Parking;
    Recorded(cfg, steps, n, o);
    var id, at := o.event.id, Some(steps[n].at);
    RunWaits(cfg, steps, n + 1, id, at);
    forall step | Enabled(cfg, Run(cfg, steps), step) && Takes(step, id) ensures step.now >= at.value {
      NeverTakenBefore(cfg, Run(cfg, steps), id, at, step);
    }
  }

  lemma Recorded(cfg: Config, steps: seq<Step>, n: nat, o: Outcome)
    requires n < |steps| && Records(cfg, Run(cfg, steps[..n]), steps[n], o)
    ensures var s, t := Run(cfg, steps[..n]), Run(cfg, steps[..n + 1]);
      Enabled(cfg, s, steps[n]) && t == Apply(cfg, s, steps[n]) && o.err.Some?
    ensures o.err.value.cause == Transport ==> WaitsFor(Run(cfg, steps[..n + 1]), o.event.id, None)
    ensures steps[n].Revert?
    ensures o.err.value.cause != Transport && (cfg.maxAttempts <= 0 || o.event.attempts + 1 < cfg.maxAttempts) ==>
      WaitsFor(Run(cfg, steps[..n + 1]), o.event.id, Some(steps[n].at))
  {
    hide Enabled, Apply, Parking, WaitsFor;
    assert steps[..n + 1][..n] == steps[..n];
    RunBelow(cfg, steps[..n]);
    RecordedRow(cfg, Run(cfg, steps[..n]), steps[n], o);
  }

  /** A lost connection costs a row neither an attempt nor time: it is pending and due at once, at any clock. */
  lemma LostConnectionIsDueAtOnce(cfg: Config, steps: seq<Step>, n: nat, o: Outcome)
    requires n < |steps| && Records(cfg, Run(cfg, steps[..n]), steps[n], o) && o.err.value.cause == Transport
    requires LeftAlone(cfg, steps, n + 1, o.event.id)
    ensures var t := Run(cfg, steps[..n + 1]); o.event.id in t.rows && t.rows[o.event.id].attempts == o.event.attempts
    ensures var v, id := Run(cfg, steps), o.event.id;
      id in v.rows && forall now: int :: Due(v.rows[id], now)
  {
    hide Enabled, Apply, LeftAlone, Parking;
    Recorded(cfg, steps, n, o);
    RunBelow(cfg, steps[..n]);
    RecordedRow(cfg, Run(cfg, steps[..n]), steps[n], o);
    RunWaits(cfg, steps, n + 1, o.event.id, None);
  }

  /** What a drain records of a failed row: a refusal counts and may park it, an unknown outcome does not. */
  lemma DrainRecords(cfg: Config, steps: seq<Step>, relay: nat, times: nat -> int, k: nat)
    requires Enabled(cfg, Run(cfg, steps), DrainCommit(relay, times))
    requires k < |WorkOf(Run(cfg, steps), relay).outcomes.value| && WorkOf(Run(cfg, steps), relay).outcomes.value[k].err.Some?
    ensures var s := Run(cfg, steps);
      var t, o := Apply(cfg, s, DrainCommit(relay, times)), WorkOf(s, relay).outcomes.value[k];
      var id := o.event.id;
      && id in s.rows && id in t.rows && t.rows[id].lastError == o.err
      && t.rows[id].attempts == s.rows[id].attempts + (if o.err.value.cause == Rejected then 1 else 0)
      && (if o.err.value.cause == Rejected && 0 < cfg.maxAttempts <= s.rows[id].attempts + 1 then t.rows[id].state == Parked
          else WaitsFor(t, id, Some(times(id))))
  {
    hide Enabled, Apply, Locked;
    DrainIsExact(cfg, steps, relay, times, k);
  }

  /** A row that a drain puts back waits its time too, after an unknown outcome as well. */
  lemma DrainedRowWaits(cfg: Config, steps: seq<Step>, n: nat, k: nat)
    requires n < |steps| && steps[n].DrainCommit? && Enabled(cfg, Run(cfg, steps[..n]), steps[n])
    requires var outcomes := WorkOf(Run(cfg, steps[..n]), steps[n].relay).outcomes.value;
      && k < |outcomes| && outcomes[k].err.Some?
      && (outcomes[k].err.value.cause == Rejected ==> cfg.maxAttempts <= 0 || outcomes[k].event.attempts + 1 < cfg.maxAttempts)
      && LeftAlone(cfg, steps, n + 1, outcomes[k].event.id)
    ensures var v, id := Run(cfg, steps), WorkOf(Run(cfg, steps[..n]), steps[n].relay).outcomes.value[k].event.id;
      && WaitsFor(v, id, Some(steps[n].times(id)))
      && (forall step :: Enabled(cfg, v, step) && Takes(step, id) ==> step.now >= steps[n].times(id))
  {
    hide Apply, LeftAlone, Locked;
    var s := Run(cfg, steps[..n]);
    var o := WorkOf(s, steps[n].relay).outcomes.value[k];
    assert steps[..n + 1][..n] == steps[..n];
    DrainRecords(cfg, steps[..n], steps[n].relay, steps[n].times, k);
    DrainIsExact(cfg, steps[..n], steps[n].relay, steps[n].times, k);
    RunWaits(cfg, steps, n + 1, o.event.id, Some(steps[n].times(o.event.id)));
    forall step | Enabled(cfg, Run(cfg, steps), step) && Takes(step, o.event.id) ensures step.now >= steps[n].times(o.event.id) {
      NeverTakenBefore(cfg, Run(cfg, steps), o.event.id, Some(steps[n].times(o.event.id)), step);
    }
  }

  ghost predicate DistinctFailures(failed: seq<Outcome>) {
    && (forall k :: 0 <= k < |failed| ==> failed[k].err.Some?)
    && forall j, k :: 0 <= j < k < |failed| ==> failed[j].event.id != failed[k].event.id
  }

  /** The settle code writes every failed row of the table once, for its own failure, and no other row. */
  lemma {:induction false} RevertedOnce(cfg: Config, rows: map<nat, Row>, failed: seq<Outcome>, at: (nat, int) -> int, n: nat)
    requires n <= |failed| && DistinctFailures(failed)
    ensures var t := RevertedRows(cfg, rows, failed, at, n);
      && t.Keys == rows.Keys
      && (forall k :: 0 <= k < n && failed[k].event.id in rows ==>
            var event := failed[k].event;
            t[event.id] == Reverted(cfg, rows[event.id], failed[k], at(event.id, event.attempts + 1)))
      && forall id :: id in rows && (forall k :: 0 <= k < n ==> failed[k].event.id != id) ==> t[id] == rows[id]
  {
    hide Reverted;
    if n > 0 {
      RevertedOnce(cfg, rows, failed, at, n - 1);
    }
  }

  lemma TimeOfFailedRow(cfg: Config, waits: Waits, rows: map<nat, Row>, failed: seq<Outcome>, clock: nat -> int,
                        draws: nat -> Draw, k: nat)
    requires DistinctFailures(failed) && k < |failed| && failed[k].event.id in rows && failed[k].err.Some?
    ensures var id := failed[k].event.id;
      var t := RevertedRows(cfg, rows, failed, RetryAt(waits, clock, draws), |failed|);
      && id in t
      && (failed[k].err.value.cause == Transport ==> t[id].nextAttemptAt.None?)
      && (failed[k].err.value.cause != Transport && t[id].state == Pending ==>
            t[id].nextAttemptAt == Some(clock(id) + RetryDelay(waits, failed[k].event.attempts + 1, draws(id))))
  {
    hide RevertedRows, RetryDelay, RetryAt, DistinctFailures;
    FailureOnce(cfg, waits, rows, failed, clock, draws, k);
  }

  lemma FailureOnce(cfg: Config, waits: Waits, rows: map<nat, Row>, failed: seq<Outcome>, clock: nat -> int,
                    draws: nat -> Draw, k: nat)
    requires DistinctFailures(failed) && k < |failed| && failed[k].event.id in rows && failed[k].err.Some?
    ensures var t, o := RevertedRows(cfg, rows, failed, RetryAt(waits, clock, draws), |failed|), failed[k];
      var id := o.event.id;
      id in t && t[id] == Reverted(cfg, rows[id], o, clock(id) + RetryDelay(waits, o.event.attempts + 1, draws(id)))
  {
    hide RevertedRows, RetryDelay, Reverted, DistinctFailures;
    RevertedAt(cfg, rows, failed, RetryAt(waits, clock, draws), k);
  }

  lemma RevertedAt(cfg: Config, rows: map<nat, Row>, failed: seq<Outcome>, at: (nat, int) -> int, k: nat)
    requires DistinctFailures(failed) && k < |failed| && failed[k].event.id in rows
    ensures var t, o := RevertedRows(cfg, rows, failed, at, |failed|), failed[k];
      o.err.Some? && o.event.id in t && t[o.event.id] == Reverted(cfg, rows[o.event.id], o, at(o.event.id, o.event.attempts + 1))
  {
    hide RevertedRows, Reverted;
    RevertedOnce(cfg, rows, failed, at, |failed|);
  }

  /** A row with a counted failure that is not parked is tried again after the delay of its attempts: the doubled base up
      to the maximum, and with jitter at most half as much again. A lost connection leaves no time to wait for. */
  lemma DelayOfFailedRow(cfg: Config, waits: Waits, rows: map<nat, Row>, failed: seq<Outcome>, clock: nat -> int,
                         draws: nat -> Draw, k: nat)
    requires DistinctFailures(failed) && k < |failed| && failed[k].err.Some? && failed[k].event.id in rows
        && failed[k].event.attempts >= 0
    requires waits.base > 0 && 0 < waits.max <= TWO_62
    ensures var id, attempts := failed[k].event.id, failed[k].event.attempts;
      var t := RevertedRows(cfg, rows, failed, RetryAt(waits, clock, draws), |failed|);
      && id in t
      && (failed[k].err.value.cause == Transport ==> t[id].nextAttemptAt.None?)
      && (failed[k].err.value.cause != Transport && t[id].state == Pending ==>
            && t[id].nextAttemptAt.Some?
            && var delay, exact := t[id].nextAttemptAt.value - clock(id), Backoff.Min(waits.base * Pow2(attempts), waits.max);
               exact <= delay && 2 * delay < 3 * exact + 2 && (!waits.jitter ==> delay == exact))
  {
    hide RevertedRows, RetryDelay, RetryAt, Pow2, Backoff.Min, DistinctFailures, Jittered, Doubled, NextAttemptDelay;
    TimeOfFailedRow(cfg, waits, rows, failed, clock, draws, k);
    RetryDelayBounds(waits, failed[k].event.attempts + 1, draws(failed[k].event.id));
  }

  /** A drain waits for the delay of the attempts after a refusal, and after an unknown outcome for at least as long as a
      publish may take and five seconds. */
  lemma DelayOfDrainedRow(waits: Waits, now: int, draws: nat -> Draw, outcomes: seq<Outcome>, k: nat)
    requires DistinctEvents(EventsOf(outcomes)) && k < |outcomes| && outcomes[k].err.Some? && outcomes[k].event.attempts >= 0
    requires waits.base > 0 && 0 < waits.max <= TWO_62
    ensures var o := outcomes[k];
      var delay := DrainAt(waits, now, draws, outcomes)(o.event.id) - now;
      if o.err.value.cause == Rejected then
        var exact := Backoff.Min(waits.base * Pow2(o.event.attempts), waits.max);
        exact <= delay && 2 * delay < 3 * exact + 2 && (!waits.jitter ==> delay == exact)
      else
        && delay >= waits.publishTimeout && delay >= 5_000_000_000
        && (2 * delay < 3 * waits.publishTimeout || 2 * delay < 3 * 5_000_000_000)
  {
    hide RetryDelay, UnknownRetryDelay;
    FailureAt(outcomes, k);
    DrainAtIs(waits, now, draws, outcomes, k);
    RetryDelayBounds(waits, outcomes[k].event.attempts + 1, draws(outcomes[k].event.id));
    UnknownDelayBounds(waits, draws(outcomes[k].event.id));
  }

  /** The row is in the hands of the relay that claimed it at this time. */
  ghost predicate InHandSince(s: System, id: nat, time: int) {
    id in s.rows && s.rows[id].state == InFlight && s.rows[id].updatedAt == time
  }

  /** The step gives the row of a relay that stalled to others. */
  predicate TakesOver(step: Step, id: nat) {
    (step.Claim? && id in step.ids) || (step.Reclaim? && id in step.stalledIds)
  }

  lemma StepInHand(cfg: Config, s: System, step: Step, id: nat, time: int)
    requires InHandSince(s, id, time) && RowsKnown(s) && LocksHold(s) && Enabled(cfg, s, step)
    requires !Settles(s, step, id) && !TakesOver(step, id)
    ensures InHandSince(Apply(cfg, s, step), id, time)
  {
    hide LocksHold;
    if step.DrainCommit? {
      OtherDrainWaits(cfg, s, step, id);
    } else {
      hide Stored, OutcomesOf, Failed, Published, Reverted, Locked;
    }
  }

  ghost predicate NotTakenOver(cfg: Config, steps: seq<Step>, n: nat, id: nat) {
    forall m :: n <= m < |steps| ==> !Settles(Run(cfg, steps[..m]), steps[m], id) && !TakesOver(steps[m], id)
  }

  lemma NotTakenOverBefore(cfg: Config, steps: seq<Step>, n: nat, id: nat)
    requires n < |steps| && NotTakenOver(cfg, steps, n, id)
    ensures var init, last := steps[..|steps| - 1], steps[|steps| - 1];
      NotTakenOver(cfg, init, n, id) && !Settles(Run(cfg, init), last, id) && !TakesOver(last, id)
  {
    hide Run, Settles, TakesOver;
    var init := steps[..|steps| - 1];
    forall m | n <= m < |init| ensures !Settles(Run(cfg, init[..m]), init[m], id) && !TakesOver(init[m], id) {
      assert init[..m] == steps[..m] && init[m] == steps[m];
    }
  }

  lemma {:induction false} RunInHand(cfg: Config, steps: seq<Step>, n: nat, id: nat, time: int)
    requires n <= |steps| && InHandSince(Run(cfg, steps[..n]), id, time) && NotTakenOver(cfg, steps, n, id)
    ensures InHandSince(Run(cfg, steps), id, time)
  {
    hide Enabled, Apply, Settles, InHandSince, Safe, LocksHold, TakesOver, NotTakenOver, Run, RowsKnown;
    if n == |steps| {
      assert steps[..n] == steps;
    } else {
      var init := steps[..|steps| - 1];
      assert init[..n] == steps[..n];
      NotTakenOverBefore(cfg, steps, n, id);
      RunStep(cfg, steps);
      RunInHand(cfg, init, n, id, time);
      RunSafe(cfg, init);
      RunLocks(cfg, init);
      SafeKnows(cfg, Run(cfg, init));
      if Enabled(cfg, Run(cfg, init), steps[|init|]) {
        StepInHand(cfg, Run(cfg, init), steps[|init|], id, time);
      }
    }
  }

  lemma ClaimTakes(cfg: Config, s: System, step: Step, id: nat)
    requires step.Claim? && Enabled(cfg, s, step) && id in step.ids
    ensures InHandSince(Apply(cfg, s, step), id, step.now)
  {
    hide Locked;
    var k :| 0 <= k < |step.ids| && step.ids[k] == id;
  }

  /** A claimed row belongs to its relay for the stall time. After a claim in step n, and until the row is settled, the
      first step that gives it to others comes later than that; and then a relay may reclaim it. */
  lemma ClaimedRowIsKept(cfg: Config, steps: seq<Step>, n: nat, id: nat)
    requires n < |steps| && steps[n].Claim? && id in steps[n].ids && Enabled(cfg, Run(cfg, steps[..n]), steps[n])
    requires NotTakenOver(cfg, steps, n + 1, id)
    ensures var v := Run(cfg, steps);
      && id in v.rows && v.rows[id].state == InFlight
      && (forall step :: Enabled(cfg, v, step) && TakesOver(step, id) ==> step.now > steps[n].now + cfg.stall)
      && forall now: int :: now > steps[n].now + cfg.stall ==> Enabled(cfg, v, Reclaim({id}, now))
  {
    hide Apply, NotTakenOver;
    assert steps[..n + 1][..n] == steps[..n];
    ClaimTakes(cfg, Run(cfg, steps[..n]), steps[n], id);
    RunInHand(cfg, steps, n + 1, id, steps[n].now);
    var v := Run(cfg, steps);
    forall step | Enabled(cfg, v, step) && TakesOver(step, id) ensures step.now > steps[n].now + cfg.stall {
      TakenOverLate(cfg, v, step, id);
    }
  }

  lemma TakenOverLate(cfg: Config, s: System, step: Step, id: nat)
    requires id in s.rows && s.rows[id].state == InFlight && Enabled(cfg, s, step) && TakesOver(step, id)
    ensures step.now > s.rows[id].updatedAt + cfg.stall
  {
    hide Locked;
    if step.Claim? {
      var k :| 0 <= k < |step.ids| && step.ids[k] == id;
    }
  }

  /** What a relay reports as published is closed: its rows are gone, or done, and no other row changes. */
  lemma PublishedRowsAreClosed(cfg: Config, s: System, relay: nat)
    requires Enabled(cfg, s, Close(relay, true))
    ensures var published, t := Ids(WorkOf(s, relay).published), Apply(cfg, s, Close(relay, true));
      && (forall id :: id in published ==>
            if cfg.deleteAfterSend then id !in t.rows
            else id in s.rows ==> id in t.rows && t.rows[id] == s.rows[id].(state := Done))
      && forall id :: id !in published ==> (id in t.rows <==> id in s.rows) && (id in s.rows ==> t.rows[id] == s.rows[id])
  {
    hide Locked;
  }

  /** New rows and requeued ones are due at once, with all their attempts. */
  lemma NewRowsAreDue(cfg: Config, s: System, step: Step, id: nat)
    requires Enabled(cfg, s, step) && ((step.Insert? && step.id == id) || (step.Requeue? && id in step.parkedIds))
    ensures var t := Apply(cfg, s, step); WaitsFor(t, id, None) && t.rows[id].attempts == 0
    ensures forall other :: other in s.rows && other != id && !(step.Requeue? && other in step.parkedIds) ==>
      other in Apply(cfg, s, step).rows && Apply(cfg, s, step).rows[other] == s.rows[other]
  {
  }

  /** Publishing, a drain before its commit, a rollback, a crash and a failed write change no row. */
  lemma OthersChangeNoRow(cfg: Config, s: System, step: Step)
    requires Enabled(cfg, s, step)
    requires step.Publish? || step.DrainClaim? || step.DrainRollback? || step.Crash?
      || (step.Revert? && !step.written) || (step.Close? && !step.written)
    ensures Apply(cfg, s, step).rows == s.rows
  {
    hide Stored, OutcomesOf, Locked;
  }

  /** A row in flight was due when it was claimed. */
  ghost predicate ClaimedWhenDue(s: System) {
    forall id :: id in s.rows && s.rows[id].state == InFlight && s.rows[id].nextAttemptAt.Some? ==>
      s.rows[id].nextAttemptAt.value <= s.rows[id].updatedAt
  }

  lemma StepClaimedWhenDue(cfg: Config, s: System, step: Step)
    requires ClaimedWhenDue(s) && Enabled(cfg, s, step) && cfg.stall >= 0
    ensures ClaimedWhenDue(Apply(cfg, s, step))
  {
    var t := Apply(cfg, s, step);
    forall id | id in t.rows && t.rows[id].state == InFlight && t.rows[id].nextAttemptAt.Some?
      ensures t.rows[id].nextAttemptAt.value <= t.rows[id].updatedAt
    {
      if step.Claim? {
        ClaimedRowWasDue(cfg, s, step, id);
      } else {
        StaysInFlight(cfg, s, step, id);
      }
    }
  }

  lemma ClaimedRowWasDue(cfg: Config, s: System, step: Step, id: nat)
    requires ClaimedWhenDue(s) && Enabled(cfg, s, step) && cfg.stall >= 0 && step.Claim? && id in Apply(cfg, s, step).rows
    ensures var row := Apply(cfg, s, step).rows[id];
      row.state == InFlight && row.nextAttemptAt.Some? ==> row.nextAttemptAt.value <= row.updatedAt
  {
    hide Locked;
    assert id in s.rows;
    if id in step.ids {
      var k :| 0 <= k < |step.ids| && step.ids[k] == id;
    }
  }

  /** Only a claim puts a row in flight. */
  lemma StaysInFlight(cfg: Config, s: System, step: Step, id: nat)
    requires Enabled(cfg, s, step) && !step.Claim? && id in Apply(cfg, s, step).rows
        && Apply(cfg, s, step).rows[id].state == InFlight
    ensures id in s.rows && Apply(cfg, s, step).rows[id] == s.rows[id]
  {
    hide Stored, OutcomesOf, Locked, FailureOf, Failed, Published;
  }

  lemma {:induction false} RunClaimedWhenDue(cfg: Config, steps: seq<Step>)
    requires cfg.stall >= 0
    ensures ClaimedWhenDue(Run(cfg, steps))
  {
    if steps != [] {
      hide Enabled, Apply, ClaimedWhenDue;
      var init, last := steps[..|steps| - 1], steps[|steps| - 1];
      RunClaimedWhenDue(cfg, init);
      if Enabled(cfg, Run(cfg, init), last) {
        StepClaimedWhenDue(cfg, Run(cfg, init), last);
      }
    }
  }

  /** Over every run: a row taken back from a relay that stalled is due at once, with the attempts it had. */
  lemma ReclaimedRowIsDue(cfg: Config, steps: seq<Step>, ids: set<nat>, now: int, id: nat)
    requires cfg.stall >= 0 && Enabled(cfg, Run(cfg, steps), Reclaim(ids, now)) && id in ids
    ensures var s := Run(cfg, steps);
      var t := Apply(cfg, s, Reclaim(ids, now));
      id in s.rows && id in t.rows && Due(t.rows[id], now) && t.rows[id].attempts == s.rows[id].attempts
    ensures var s := Run(cfg, steps);
      forall other :: other in s.rows && other !in ids ==>
        other in Apply(cfg, s, Reclaim(ids, now)).rows && Apply(cfg, s, Reclaim(ids, now)).rows[other] == s.rows[other]
  {
    RunClaimedWhenDue(cfg, steps);
  }

  /** An event that was sent, with the error it got. */
  ghost predicate FailedAmong(cfg: Config, events: seq<Event>, errs: seq<Option<PubErr>>, o: Outcome)
    requires |errs| == |events|
  {
    exists k :: 0 <= k < |events| && o == Outcome(events[k], errs[k]) && errs[k].Some? && !Superseded(events, cfg.prefixes, k)
  }

  ghost predicate PublishedAmong(cfg: Config, events: seq<Event>, errs: seq<Option<PubErr>>, e: Event)
    requires |errs| == |events|
  {
    exists k :: 0 <= k < |events| && e == events[k] && (errs[k].None? || Superseded(events, cfg.prefixes, k))
  }

  /** How a batch is sorted after its publish: a superseded event counts as published whatever happens to the others, and a
      sent one by its own answer; the rows do not change. */
  lemma PublishSorts(cfg: Config, s: System, relay: nat, errs: seq<Option<PubErr>>, lost: set<nat>, i: nat)
    requires WorkOf(s, relay).Claimed? && Enabled(cfg, s, Publish(relay, errs, lost)) && i < |WorkOf(s, relay).events|
    ensures var events, w := WorkOf(s, relay).events, WorkOf(Apply(cfg, s, Publish(relay, errs, lost)), relay);
      && w.Settling?
      && (Superseded(events, cfg.prefixes, i) || errs[i].None? ==> events[i] in w.published)
      && (!Superseded(events, cfg.prefixes, i) && errs[i].Some? ==> Outcome(events[i], errs[i]) in w.failed)
      && (forall o :: o in w.failed ==> FailedAmong(cfg, events, errs, o))
      && forall e :: e in w.published ==> PublishedAmong(cfg, events, errs, e)
  {
    hide Superseded, Stored, Failed, Published;
    var events := WorkOf(s, relay).events;
    var outcomes := OutcomesOf(cfg, events, errs);
    assert outcomes[i] in outcomes;
    forall o | o in Failed(outcomes)
      ensures FailedAmong(cfg, events, errs, o)
    {
      var k :| 0 <= k < |outcomes| && outcomes[k] == o;
    }
    forall e | e in Published(outcomes)
      ensures PublishedAmong(cfg, events, errs, e)
    {
      var k :| 0 <= k < |outcomes| && outcomes[k] == Outcome(e, None);
    }
  }
}
