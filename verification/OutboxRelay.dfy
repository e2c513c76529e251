/** The relay's own settle code, proved against the steps. */
module OutboxRelay {
  import opened BatchTypes
  import opened LatestOnly
  import opened OutboxSteps
  import opened OutboxDrain
  import opened Backoff

  /** Sorts the outcomes of a batch into published rows and failures. */
  method Split(outcomes: seq<Outcome>) returns (published: seq<Event>, failed: seq<Outcome>)
    ensures published == Published(outcomes) && failed == Failed(outcomes)
  {
    published, failed := [], [];
    var n := |outcomes|;
    while n > 0
      invariant 0 <= n <= |outcomes|
      invariant published == Published(outcomes[n..]) && failed == Failed(outcomes[n..])
    {
      n := n - 1;
      assert outcomes[n..][1..] == outcomes[n + 1..] && outcomes[n..][0] == outcomes[n];
      if outcomes[n].err.Some? {
        failed := [outcomes[n]] + failed;
      } else {
        published := [outcomes[n].event] + published;
      }
    }
    assert outcomes[0..] == outcomes;
  }

  method ById(events: seq<Event>) returns (eventById: map<nat, Event>)
    requires DistinctEvents(events)
    ensures forall e :: e in events ==> e.id in eventById && eventById[e.id] == e
  {
    eventById := map[];
    for i := 0 to |events|
      invariant forall k :: 0 <= k < i ==> events[k].id in eventById && eventById[events[k].id] == events[k]
    {
      eventById := eventById[events[i].id := events[i]];
    }
  }

  /** The rows after the first n failures have been written, with the times at. */
  function RevertedRows(cfg: Config, rows: map<nat, Row>, failed: seq<Outcome>, at: (nat, int) -> int, n: nat): map<nat, Row>
    requires n <= |failed| && forall k :: 0 <= k < |failed| ==> failed[k].err.Some?
  {
    if n == 0 then rows
    else
      var before, id := RevertedRows(cfg, rows, failed, at, n - 1), failed[n - 1].event.id;
      if id !in before then before
      else before[id := Reverted(cfg, before[id], failed[n - 1], at(id, failed[n - 1].event.attempts + 1))]
  }

  lemma RevertsNone(cfg: Config, rows: map<nat, Row>, failed: seq<Outcome>, at: (nat, int) -> int)
    requires forall k :: 0 <= k < |failed| ==> failed[k].err.Some?
    ensures RevertedRows(cfg, rows, failed, at, 0) == rows
  {
  }

  /** When a relay tries row id again after its attempts-th attempt. */
  function RetryAt(waits: Waits, clock: nat -> int, draws: nat -> Draw): (nat, int) -> int {
    (id: nat, attempts: int) => clock(id) + RetryDelay(waits, attempts, draws(id))
  }

  lemma RevertsNext(cfg: Config, waits: Waits, rows: map<nat, Row>, failed: seq<Outcome>, clock: nat -> int,
                    draws: nat -> Draw, n: nat)
    requires n < |failed| && forall k :: 0 <= k < |failed| ==> failed[k].err.Some?
    ensures var at := RetryAt(waits, clock, draws);
      var before, o := RevertedRows(cfg, rows, failed, at, n), failed[n];
      var id := o.event.id;
      RevertedRows(cfg, rows, failed, at, n + 1) ==
        if id !in before then before
        else before[id := Reverted(cfg, before[id], o, clock(id) + RetryDelay(waits, o.event.attempts + 1, draws(id)))]
  {
    hide RetryDelay, Reverted;
  }

  /** The row that a relay writes for a failed publish: only a counted failure has a delay. */
  method RevertedRow(cfg: Config, waits: Waits, row: Row, event: Event, err: PubErr, now: int, draw: Draw) returns (reverted: Row)
    ensures reverted == Reverted(cfg, row, Outcome(event, Some(err)), now + RetryDelay(waits, event.attempts + 1, draw))
  {
    hide RetryDelay;
    var attempts := event.attempts;
    var nextAttemptAt: Option<int> := None;
    if !IsTransport(err) {
      attempts := attempts + 1;
      nextAttemptAt := Some(now + RetryDelay(waits, attempts, draw));
    }
    var state := Pending;
    if cfg.maxAttempts > 0 && attempts >= cfg.maxAttempts {
      state, nextAttemptAt := Parked, None;
    }
    reverted := row.(state := state, attempts := attempts, nextAttemptAt := nextAttemptAt, lastError := Some(err));
  }

  /** When a drain tries row id again, with the clock at now. */
  function DrainAt(waits: Waits, now: int, draws: nat -> Draw, outcomes: seq<Outcome>): nat -> int {
    (id: nat) =>
      var o := FailureOf(outcomes, id);
      if o.None? || UnknownOutcome(o.value.err.value) then now + UnknownRetryDelay(waits, draws(id))
      else now + RetryDelay(waits, o.value.event.attempts + 1, draws(id))
  }

  /** The row that a drain writes for a failed outcome. */
  method RestoredRow(cfg: Config, waits: Waits, row: Row, o: Outcome, now: int, draw: Draw) returns (restored: Row)
    requires o.err.Some? && o.event.attempts == row.attempts
    ensures restored == Restored(cfg, row, o, now +
      if UnknownOutcome(o.err.value) then UnknownRetryDelay(waits, draw) else RetryDelay(waits, row.attempts + 1, draw))
  {
    hide UnknownRetryDelay, RetryDelay;
    restored := row.(lastError := o.err, state := Pending, nextAttemptAt := Some(now + UnknownRetryDelay(waits, draw)));
    if !UnknownOutcome(o.err.value) {
      restored := restored.(attempts := row.attempts + 1);
      restored := restored.(nextAttemptAt := Some(now + RetryDelay(waits, restored.attempts, draw)));
      if cfg.maxAttempts > 0 && restored.attempts >= cfg.maxAttempts {
        restored := restored.(state := Parked, nextAttemptAt := None);
      }
    }
  }

  lemma DrainAtIs(waits: Waits, now: int, draws: nat -> Draw, outcomes: seq<Outcome>, n: nat)
    requires n < |outcomes| && outcomes[n].err.Some? && FailureOf(outcomes, outcomes[n].event.id) == Some(outcomes[n])
    ensures var o := outcomes[n];
      DrainAt(waits, now, draws, outcomes)(o.event.id) == now +
        if UnknownOutcome(o.err.value) then UnknownRetryDelay(waits, draws(o.event.id))
        else RetryDelay(waits, o.event.attempts + 1, draws(o.event.id))
  {
    hide RetryDelay, UnknownRetryDelay, FailureOf;
  }

  /** A row of the retries table. */
  datatype Retry = Retry(eventId: nat, error: string)

  ghost predicate FailuresHaveErrors(failed: seq<Outcome>) {
    forall k :: 0 <= k < |failed| ==> failed[k].err.Some?
  }

  function RetriesOf(failed: seq<Outcome>): (retries: seq<Retry>)
    requires FailuresHaveErrors(failed)
    ensures |retries| == |failed|
    ensures forall k :: 0 <= k < |failed| ==> retries[k] == Retry(failed[k].event.id, failed[k].err.value.text)
  {
    seq(|failed|, k requires 0 <= k < |failed| => Retry(failed[k].event.id, failed[k].err.value.text))
  }

  /** The outbox and the retries table as the relay writes them; a database may have no retries table. */
  class Table {
    const hasRetries: bool
    var rows: map<nat, Row>
    var retries: seq<Retry>

    constructor (rows: map<nat, Row>, hasRetries: bool)
      ensures this.rows == rows && this.hasRetries == hasRetries && retries == []
    {
      this.rows, this.hasRetries, retries := rows, hasRetries, [];
    }

    /** Records the failures of a batch one by one; the attempts come from the claimed events, and clock tells when
        each one is written. */
    method RevertFailed(cfg: Config, waits: Waits, events: seq<Event>, failed: seq<Outcome>, clock: nat -> int, draws: nat -> Draw)
      requires DistinctEvents(events)
      requires forall k :: 0 <= k < |failed| ==> failed[k].err.Some? && failed[k].event in events
      modifies `rows
      ensures rows == RevertedRows(cfg, old(rows), failed, RetryAt(waits, clock, draws), |failed|)
    {
      hide RevertedRows, Reverted, RetryDelay, RetryAt, Ids, DistinctEvents;
      ghost var at := RetryAt(waits, clock, draws);
      RevertsNone(cfg, rows, failed, at);
      ghost var before := rows;
      var eventById := ById(events);
      var i := 0;
      while i < |failed|
        invariant 0 <= i <= |failed| && rows == RevertedRows(cfg, before, failed, at, i)
      {
        RevertsNext(cfg, waits, before, failed, clock, draws, i);
        var o := failed[i];
        assert o.event in events;
        var event := eventById[o.event.id];
        assert Outcome(event, Some(o.err.value)) == o;
        if event.id in rows {
          var reverted := RevertedRow(cfg, waits, rows[event.id], event, o.err.value, clock(event.id), draws(event.id));
          rows := rows[event.id := reverted];
        }
        i := i + 1;
      }
    }

    /** Inside the drain transaction: the claim takes all rows away, the failed ones are put back with their
        failure, and what is left is exactly what the commit of a drain leaves. */
    method DrainBatch(cfg: Config, waits: Waits, events: seq<Event>, outcomes: seq<Outcome>, now: int, draws: nat -> Draw)
      requires DistinctEvents(events) && EventsOf(outcomes) == events
      requires forall e :: e in events ==> e.id in rows && rows[e.id].state == Pending && EventOf(e.id, rows[e.id]) == e
      modifies this
      ensures rows == DrainedRows(cfg, old(rows), outcomes, DrainAt(waits, now, draws, outcomes))
      ensures FailuresHaveErrors(Failed(outcomes))
      ensures retries == old(retries) + if hasRetries then RetriesOf(Failed(outcomes)) else []
    {
      hide Drained, DrainedRows, Failed, RetryDelay, UnknownRetryDelay, DrainAt, RetriesOf, Restored, FailuresHaveErrors,
          DistinctEvents;
      var claimed := rows;
      ghost var at := DrainAt(waits, now, draws, outcomes);
      var failures: seq<Retry> := [];
      rows := CloseRows(cfg, rows, Ids(events));
      TakenAway(cfg, claimed, events, outcomes, at);
      var n := 0;
      while n < |outcomes|
        invariant 0 <= n <= |outcomes| && retries == old(retries)
        invariant Drained(cfg, claimed, events, outcomes, at, n, rows, failures)
      {
        DrainNext(cfg, claimed, events, outcomes, at, n, rows, failures);
        var o := outcomes[n];
        if o.err.Some? {
          DrainAtIs(waits, now, draws, outcomes, n);
          var restored := RestoredRow(cfg, waits, claimed[o.event.id], o, now, draws(o.event.id));
          rows := rows[o.event.id := restored];
          failures := failures + [Retry(o.event.id, o.err.value.text)];
        }
        n := n + 1;
      }
      retries := retries + if hasRetries then failures else [];
      DrainedIs(cfg, claimed, events, outcomes, at, rows, failures);
    }

    /** Failures first, each with a row in the retries table, then the published rows in one statement. */
    method SettleOutcomes(cfg: Config, waits: Waits, events: seq<Event>, failed: seq<Outcome>, published: seq<Event>,
                          clock: nat -> int, draws: nat -> Draw)
      requires DistinctEvents(events)
      requires forall k :: 0 <= k < |failed| ==> failed[k].err.Some? && failed[k].event in events
      modifies this
      ensures var at := RetryAt(waits, clock, draws);
        rows == CloseRows(cfg, RevertedRows(cfg, old(rows), failed, at, |failed|), Ids(published))
      ensures retries == old(retries) + if hasRetries then RetriesOf(failed) else []
    {
      RevertFailed(cfg, waits, events, failed, clock, draws);
      retries := retries + if hasRetries then RetriesOf(failed) else [];
      if published != [] {
        if cfg.deleteAfterSend {
          rows := rows - Ids(published);
        } else {
          var ids := Ids(published);
          rows := map id | id in rows :: if id in ids then rows[id].(state := Done) else rows[id];
        }
      } else {
        ClosesNothing(cfg, rows);
      }
    }
  }

  /** One more outcome adds one more retry, if it is a failure. */
  lemma FailedStep(outcomes: seq<Outcome>, n: nat)
    requires n < |outcomes| && FailuresHaveErrors(Failed(outcomes[..n]))
    ensures var failed, o := Failed(outcomes[..n + 1]), outcomes[n];
      && FailuresHaveErrors(failed)
      && RetriesOf(failed) == RetriesOf(Failed(outcomes[..n])) +
           (if o.err.Some? then [Retry(o.event.id, o.err.value.text)] else [])
  {
    hide Failed;
    assert outcomes[..n + 1] == outcomes[..n] + [outcomes[n]];
    FailedAppend(outcomes[..n], outcomes[n]);
  }

  lemma {:induction false} FailedAppend(outcomes: seq<Outcome>, o: Outcome)
    ensures Failed(outcomes + [o]) == Failed(outcomes) + (if o.err.Some? then [o] else [])
  {
    if outcomes == [] {
      assert [] + [o] == [o] && [o][1..] == [];
    } else {
      assert (outcomes + [o])[1..] == outcomes[1..] + [o] && (outcomes + [o])[0] == outcomes[0];
      FailedAppend(outcomes[1..], o);
    }
  }

  /** One of the first n outcomes is a failure of the row. */
  ghost predicate FailedBefore(outcomes: seq<Outcome>, n: nat, id: nat) {
    exists k :: 0 <= k < |outcomes| && k < n && outcomes[k].event.id == id && outcomes[k].err.Some?
  }

  lemma FailedNext(outcomes: seq<Outcome>, n: nat)
    requires n < |outcomes| && DistinctEvents(EventsOf(outcomes))
    ensures forall id :: FailedBefore(outcomes, n + 1, id) <==>
      FailedBefore(outcomes, n, id) || (outcomes[n].event.id == id && outcomes[n].err.Some?)
    ensures !FailedBefore(outcomes, n, outcomes[n].event.id)
    ensures forall k :: 0 <= k < n ==> outcomes[k].event.id != outcomes[n].event.id
  {
    var events := EventsOf(outcomes);
    forall k | 0 <= k < n ensures outcomes[k].event.id != outcomes[n].event.id {
      assert events[k] == outcomes[k].event && events[n] == outcomes[n].event;
    }
    forall id ensures FailedBefore(outcomes, n + 1, id) <==>
      FailedBefore(outcomes, n, id) || (outcomes[n].event.id == id && outcomes[n].err.Some?)
    {
      if FailedBefore(outcomes, n + 1, id) {
        var k :| 0 <= k < |outcomes| && k < n + 1 && outcomes[k].event.id == id && outcomes[k].err.Some?;
        assert k == n || FailedBefore(outcomes, n, id);
      }
      if FailedBefore(outcomes, n, id) {
        var k :| 0 <= k < |outcomes| && k < n && outcomes[k].event.id == id && outcomes[k].err.Some?;
        assert k < n + 1;
      }
    }
  }

  /** Row id after the first n outcomes were put back. */
  ghost function AfterDrain(cfg: Config, claimed: map<nat, Row>, events: seq<Event>, outcomes: seq<Outcome>, at: nat -> int,
                            n: nat, id: nat): Row
    requires id in claimed
  {
    var o := FailureOf(outcomes, id);
    if o.Some? && FailedBefore(outcomes, n, id) then Restored(cfg, claimed[id], o.value, at(id))
    else if id in Ids(events) then claimed[id].(state := Done)
    else claimed[id]
  }

  /** The table when the failures among the first n outcomes are put back. */
  ghost predicate Partly(cfg: Config, claimed: map<nat, Row>, events: seq<Event>, outcomes: seq<Outcome>, at: nat -> int,
                         n: nat, rows: map<nat, Row>)
  {
    && (forall id :: id in rows <==>
          id in claimed && (id !in Ids(events) || !cfg.deleteAfterSend || FailedBefore(outcomes, n, id)))
    && (forall id :: id in rows ==> rows[id] == AfterDrain(cfg, claimed, events, outcomes, at, n, id))
  }

  /** The rows and the retries after the first n outcomes. */
  ghost predicate Drained(cfg: Config, claimed: map<nat, Row>, events: seq<Event>, outcomes: seq<Outcome>, at: nat -> int,
                          n: nat, rows: map<nat, Row>, failures: seq<Retry>)
    requires n <= |outcomes|
  {
    && Partly(cfg, claimed, events, outcomes, at, n, rows)
    && FailuresHaveErrors(Failed(outcomes[..n])) && failures == RetriesOf(Failed(outcomes[..n]))
  }

  lemma TakenAway(cfg: Config, claimed: map<nat, Row>, events: seq<Event>, outcomes: seq<Outcome>, at: nat -> int)
    ensures Drained(cfg, claimed, events, outcomes, at, 0, CloseRows(cfg, claimed, Ids(events)), [])
  {
    assert outcomes[..0] == [];
  }

  lemma DrainNext(cfg: Config, claimed: map<nat, Row>, events: seq<Event>, outcomes: seq<Outcome>, at: nat -> int, n: nat,
                  rows: map<nat, Row>, failures: seq<Retry>)
    requires DistinctEvents(events) && EventsOf(outcomes) == events && n < |outcomes|
    requires forall e :: e in events ==> e.id in claimed && EventOf(e.id, claimed[e.id]) == e
    requires Drained(cfg, claimed, events, outcomes, at, n, rows, failures)
    ensures var o := outcomes[n];
      && o.event.id in claimed && o.event.attempts == claimed[o.event.id].attempts
      && (o.err.Some? ==> FailureOf(outcomes, o.event.id) == Some(o))
      && Drained(cfg, claimed, events, outcomes, at, n + 1,
                 if o.err.Some? then rows[o.event.id := Restored(cfg, claimed[o.event.id], o, at(o.event.id))] else rows,
                 if o.err.Some? then failures + [Retry(o.event.id, o.err.value.text)] else failures)
  {
    hide Partly, FailureOf, Failed, RetriesOf, Restored, FailuresHaveErrors;
    FailedStep(outcomes, n);
    PutBack(cfg, claimed, events, outcomes, at, n, rows);
    FailureAt(outcomes, n);
  }

  lemma PutBack(cfg: Config, claimed: map<nat, Row>, events: seq<Event>, outcomes: seq<Outcome>, at: nat -> int, n: nat,
                rows: map<nat, Row>)
    requires DistinctEvents(events) && EventsOf(outcomes) == events && n < |outcomes|
    requires forall e :: e in events ==> e.id in claimed && EventOf(e.id, claimed[e.id]) == e
    requires Partly(cfg, claimed, events, outcomes, at, n, rows)
    ensures var o := outcomes[n];
      && o.event.id in claimed && o.event == EventOf(o.event.id, claimed[o.event.id])
      && Partly(cfg, claimed, events, outcomes, at, n + 1,
                if o.err.Some? then rows[o.event.id := Restored(cfg, claimed[o.event.id], o, at(o.event.id))] else rows)
  {
    hide Restored, FailureOf, Partly, FailedBefore;
    var o := outcomes[n];
    assert events[n] == o.event && o.event in events;
    FailedNext(outcomes, n);
    FailureAt(outcomes, n);
    PutBackOne(cfg, claimed, events, outcomes, at, n, rows);
  }

  lemma PutBackOne(cfg: Config, claimed: map<nat, Row>, events: seq<Event>, outcomes: seq<Outcome>, at: nat -> int, n: nat,
                   rows: map<nat, Row>)
    requires n < |outcomes| && outcomes[n].event.id in claimed && outcomes[n].event.id in Ids(events)
    requires Partly(cfg, claimed, events, outcomes, at, n, rows)
    requires forall id :: FailedBefore(outcomes, n + 1, id) <==>
      FailedBefore(outcomes, n, id) || (outcomes[n].event.id == id && outcomes[n].err.Some?)
    requires FailureOf(outcomes, outcomes[n].event.id) == if outcomes[n].err.Some? then Some(outcomes[n]) else None
    ensures var o := outcomes[n];
      Partly(cfg, claimed, events, outcomes, at, n + 1,
             if o.err.Some? then rows[o.event.id := Restored(cfg, claimed[o.event.id], o, at(o.event.id))] else rows)
  {
    hide Restored, FailureOf, FailedBefore, Ids;
  }

  lemma DrainedIs(cfg: Config, claimed: map<nat, Row>, events: seq<Event>, outcomes: seq<Outcome>, at: nat -> int,
                  rows: map<nat, Row>, failures: seq<Retry>)
    requires DistinctEvents(events) && EventsOf(outcomes) == events
    requires forall e :: e in events ==> e.id in claimed
    requires Drained(cfg, claimed, events, outcomes, at, |outcomes|, rows, failures)
    ensures rows == DrainedRows(cfg, claimed, outcomes, at)
    ensures FailuresHaveErrors(Failed(outcomes)) && failures == RetriesOf(Failed(outcomes))
  {
    hide Restored, Published, FailureOf, Failed, RetriesOf, FailuresHaveErrors, Partly, DrainedRows;
    assert outcomes[..|outcomes|] == outcomes;
    RowsAreDrained(cfg, claimed, events, outcomes, at, rows);
  }

  lemma RowsAreDrained(cfg: Config, claimed: map<nat, Row>, events: seq<Event>, outcomes: seq<Outcome>, at: nat -> int,
                       rows: map<nat, Row>)
    requires DistinctEvents(events) && EventsOf(outcomes) == events
    requires forall e :: e in events ==> e.id in claimed
    requires Partly(cfg, claimed, events, outcomes, at, |outcomes|, rows)
    ensures rows == DrainedRows(cfg, claimed, outcomes, at)
  {
    hide Restored, Published, FailureOf, FailedBefore, Ids, DistinctEvents;
    var t := DrainedRows(cfg, claimed, outcomes, at);
    forall id | id in claimed
      ensures (id in rows <==> id in t) && (id in rows ==> rows[id] == t[id])
    {
      DrainedIdIs(events, outcomes, id);
      if FailureOf(outcomes, id).Some? {
        RestoredIgnoresState(cfg, claimed[id], FailureOf(outcomes, id).value, at(id));
      }
    }
  }

  lemma RestoredIgnoresState(cfg: Config, row: Row, o: Outcome, at: int)
    requires o.err.Some?
    ensures Restored(cfg, row.(state := Done), o, at) == Restored(cfg, row, o, at)
  {
  }

  lemma DrainedIdIs(events: seq<Event>, outcomes: seq<Outcome>, id: nat)
    requires DistinctEvents(events) && EventsOf(outcomes) == events
    ensures FailedBefore(outcomes, |outcomes|, id) <==> FailureOf(outcomes, id).Some?
    ensures FailureOf(outcomes, id).Some? ==> FailureOf(outcomes, id).value.err.Some?
    ensures id in Ids(events) <==> FailureOf(outcomes, id).Some? || id in Ids(Published(outcomes))
    ensures !(FailureOf(outcomes, id).Some? && id in Ids(Published(outcomes)))
  {
    if id in Ids(events) {
      var e :| e in events && e.id == id;
      var k :| 0 <= k < |events| && events[k] == e;
      assert outcomes[k].event == e;
      FailureAt(outcomes, k);
    } else {
      OutcomeIds(Draining(events, Some(outcomes)));
      assert forall k :: 0 <= k < |outcomes| ==> outcomes[k].event == events[k];
    }
  }

  lemma ClosesNothing(cfg: Config, rows: map<nat, Row>)
    ensures CloseRows(cfg, rows, Ids([])) == rows
  {
    assert Ids([]) == {};
    assert rows - {} == rows;
  }

  /** The writes of one relay that settles its batch undisturbed. */
  function SettleSteps(relay: nat, failed: seq<Outcome>, at: (nat, int) -> int): (steps: seq<Step>)
    ensures |steps| == |failed| + 1
  {
    if failed == [] then [Close(relay, true)]
    else [Revert(relay, 0, true, at(failed[0].event.id, failed[0].event.attempts + 1))] + SettleSteps(relay, failed[1..], at)
  }

  /** The system after some steps from s. */
  ghost function RunFrom(cfg: Config, s: System, steps: seq<Step>): System
    decreases |steps|
  {
    if steps == [] then s
    else RunFrom(cfg, if Enabled(cfg, s, steps[0]) then Apply(cfg, s, steps[0]) else s, steps[1..])
  }

  lemma RevertFirst(cfg: Config, s: System, relay: nat, failed: seq<Outcome>, published: seq<Event>, at: (nat, int) -> int)
    requires WorkOf(s, relay) == Settling(failed, published) && failed != [] && failed[0].err.Some?
    requires forall id :: !Locked(s, id)
    ensures var time := at(failed[0].event.id, failed[0].event.attempts + 1);
      && Enabled(cfg, s, Revert(relay, 0, true, time))
      && var t := Apply(cfg, s, Revert(relay, 0, true, time));
      && WorkOf(t, relay) == Settling(failed[1..], published)
      && t.rows == RevertedRows(cfg, s.rows, [failed[0]], at, 1)
      && forall id :: !Locked(t, id)
  {
    var t := Apply(cfg, s, Revert(relay, 0, true, at(failed[0].event.id, failed[0].event.attempts + 1)));
    assert failed[..0] + failed[0 + 1..] == failed[1..];
    forall id ensures Locked(t, id) ==> Locked(s, id) {
      if Locked(t, id) {
        var r :| r in t.relays && t.relays[r].Draining? && id in Ids(t.relays[r].drained);
        assert t.relays[r] == WorkOf(s, r);
      }
    }
  }

  lemma {:induction false} RevertedRest(cfg: Config, rows: map<nat, Row>, failed: seq<Outcome>, at: (nat, int) -> int, n: nat)
    requires 0 < n <= |failed| && forall k :: 0 <= k < |failed| ==> failed[k].err.Some?
    ensures RevertedRows(cfg, rows, failed, at, n) ==
      RevertedRows(cfg, RevertedRows(cfg, rows, [failed[0]], at, 1), failed[1..], at, n - 1)
  {
    if n > 1 {
      RevertedRest(cfg, rows, failed, at, n - 1);
    } else {
      assert RevertedRows(cfg, rows, [failed[0]], at, 0) == rows;
      assert RevertedRows(cfg, rows, failed, at, 0) == rows;
    }
  }

  /** The relay's settle code and the atomic statements agree: with nobody in between and no failed write,
      the statements leave exactly the table that SettleOutcomes leaves. */
  lemma {:induction false} SettleIsTheSteps(cfg: Config, s: System, relay: nat, failed: seq<Outcome>,
                                            published: seq<Event>, at: (nat, int) -> int)
    requires WorkOf(s, relay) == Settling(failed, published) && forall id :: !Locked(s, id)
    requires forall k :: 0 <= k < |failed| ==> failed[k].err.Some?
    ensures RunFrom(cfg, s, SettleSteps(relay, failed, at)).rows ==
      CloseRows(cfg, RevertedRows(cfg, s.rows, failed, at, |failed|), Ids(published))
    decreases |failed|
  {
    var steps := SettleSteps(relay, failed, at);
    hide CloseRows, Reverted, Locked, Apply, Enabled, RunFrom, RevertedRows, SettleSteps, WorkOf, Ids;
    StepsAreSteps(relay, failed, at);
    if failed == [] {
      ClosesAll(cfg, s, relay, published);
      RevertsNone(cfg, s.rows, failed, at);
    } else {
      RevertFirst(cfg, s, relay, failed, published, at);
      RunsFirst(cfg, s, steps);
      RevertedRest(cfg, s.rows, failed, at, |failed|);
      SettleIsTheSteps(cfg, Apply(cfg, s, steps[0]), relay, failed[1..], published, at);
    }
  }

  lemma StepsAreSteps(relay: nat, failed: seq<Outcome>, at: (nat, int) -> int)
    ensures failed == [] ==> SettleSteps(relay, failed, at) == [Close(relay, true)]
    ensures failed != [] ==>
      var steps := SettleSteps(relay, failed, at);
      && steps[0] == Revert(relay, 0, true, at(failed[0].event.id, failed[0].event.attempts + 1))
      && steps[1..] == SettleSteps(relay, failed[1..], at)
  {
  }

  lemma RunsFirst(cfg: Config, s: System, steps: seq<Step>)
    requires steps != [] && Enabled(cfg, s, steps[0])
    ensures RunFrom(cfg, s, steps) == RunFrom(cfg, Apply(cfg, s, steps[0]), steps[1..])
  {
    hide Enabled, Apply;
  }

  lemma ClosesAll(cfg: Config, s: System, relay: nat, published: seq<Event>)
    requires WorkOf(s, relay) == Settling([], published) && forall id :: !Locked(s, id)
    ensures RunFrom(cfg, s, [Close(relay, true)]).rows == CloseRows(cfg, s.rows, Ids(published))
  {
    hide CloseRows;
    assert RunFrom(cfg, Apply(cfg, s, Close(relay, true)), []) == Apply(cfg, s, Close(relay, true));
  }
}
