/** The outbox table, its relays and their SQL statements as atomic steps. */
module OutboxSteps {
  import opened BatchTypes
  import opened LatestOnly

  datatype RowState = Pending | InFlight | Done | Parked

  datatype Row = Row(topic: string, version: Option<int>, state: RowState, attempts: int,
                     nextAttemptAt: Option<int>, updatedAt: int, lastError: Option<PubErr>)

  /** Why a publish failed: no connection, no answer in time, or a refusal. */
  datatype Cause = Transport | Timeout | Rejected

  datatype PubErr = PubErr(cause: Cause, text: string)

  predicate IsTransport(err: PubErr) {
    err.cause == Transport
  }

  /** The broker may have stored the message although the publish failed. */
  predicate UnknownOutcome(err: PubErr) {
    err.cause == Timeout || IsTransport(err)
  }

  datatype Outcome = Outcome(event: Event, err: Option<PubErr>)

  /** What a relay has in hand: claimed rows, rows to settle, or rows locked by its drain transaction. */
  datatype Work =
    | Idle
    | Claimed(events: seq<Event>)
    | Settling(failed: seq<Outcome>, published: seq<Event>)
    | Draining(drained: seq<Event>, outcomes: Option<seq<Outcome>>)

  datatype Config = Config(maxAttempts: int, deleteAfterSend: bool, prefixes: seq<string>, stall: int)

  /** topics, versions, accepted, failures, served and beaten are history: the subjects and versions of all rows
      ever inserted, the rows the broker accepted, the counted failures recorded since the insert or the last
      requeue, the rows a message of whose subject was accepted after their insert, and every superseded row with
      the winner it was superseded by. */
  datatype System = System(rows: map<nat, Row>, relays: map<nat, Work>, topics: map<nat, string>,
                           versions: map<nat, Option<int>>, accepted: set<nat>, failures: map<nat, nat>, served: set<nat>,
                           beaten: set<(nat, nat)>)

  datatype Step =
    | Insert(id: nat, topic: string, version: Option<int>, now: int)
    | Claim(relay: nat, ids: seq<nat>, now: int, stalled: bool)
    | Reclaim(stalledIds: set<nat>, now: int)
    | Publish(relay: nat, errs: seq<Option<PubErr>>, lost: set<nat>)
    | Revert(relay: nat, k: nat, written: bool, at: int)
    | Close(relay: nat, written: bool)
    | DrainClaim(relay: nat, ids: seq<nat>, now: int)
    | DrainCommit(relay: nat, times: nat -> int)
    | DrainRollback(relay: nat)
    | Requeue(parkedIds: set<nat>)
    | Cleanup(doneIds: set<nat>)
    | Crash(relay: nat)

  const EMPTY := System(map[], map[], map[], map[], {}, map[], {}, {})

  function WorkOf(s: System, relay: nat): Work {
    if relay in s.relays then s.relays[relay] else Idle
  }

  function Ids(events: seq<Event>): set<nat> {
    set e | e in events :: e.id
  }

  function EventsOf(outcomes: seq<Outcome>): (events: seq<Event>)
    ensures |events| == |outcomes| && forall k :: 0 <= k < |events| ==> events[k] == outcomes[k].event
  {
    seq(|outcomes|, k requires 0 <= k < |outcomes| => outcomes[k].event)
  }

  /** The rows a relay has in hand. */
  function HeldBy(w: Work): seq<Event> {
    match w
    case Idle => []
    case Claimed(events) => events
    case Settling(failed, published) => EventsOf(failed) + published
    case Draining(events, _) => events
  }

  /** Rows locked by drain transactions. */
  ghost predicate Locked(s: System, id: nat) {
    exists r :: r in s.relays && s.relays[r].Draining? && id in Ids(s.relays[r].drained)
  }

  ghost predicate Distinct(ids: seq<nat>) {
    forall a, b :: 0 <= a < b < |ids| ==> ids[a] != ids[b]
  }

  predicate Due(row: Row, now: int) {
    row.state == Pending && (row.nextAttemptAt.None? || row.nextAttemptAt.value <= now)
  }

  predicate Stalled(cfg: Config, row: Row, now: int) {
    row.state == InFlight && row.updatedAt < now - cfg.stall
  }

  function EventOf(id: nat, row: Row): Event {
    Event(id, row.topic, row.version, row.attempts)
  }

  function EventsAt(rows: map<nat, Row>, ids: seq<nat>): (events: seq<Event>)
    requires forall k :: 0 <= k < |ids| ==> ids[k] in rows
    ensures |events| == |ids| && forall k :: 0 <= k < |ids| ==> events[k] == EventOf(ids[k], rows[ids[k]])
  {
    seq(|ids|, k requires 0 <= k < |ids| => EventOf(ids[k], rows[ids[k]]))
  }

  /** A superseded event counts as published without being sent. */
  ghost function OutcomesOf(cfg: Config, events: seq<Event>, errs: seq<Option<PubErr>>): (outcomes: seq<Outcome>)
    requires |errs| == |events|
    ensures |outcomes| == |events|
  {
    seq(|events|, i requires 0 <= i < |events| =>
      Outcome(events[i], if Superseded(events, cfg.prefixes, i) then None else errs[i]))
  }

  function Failed(outcomes: seq<Outcome>): (failed: seq<Outcome>)
    ensures forall o :: o in failed <==> o in outcomes && o.err.Some?
  {
    if outcomes == [] then []
    else if outcomes[0].err.Some? then [outcomes[0]] + Failed(outcomes[1..])
    else Failed(outcomes[1..])
  }

  function Published(outcomes: seq<Outcome>): (published: seq<Event>)
    ensures forall e :: e in published <==> Outcome(e, None) in outcomes
  {
    if outcomes == [] then []
    else if outcomes[0].err.None? then [outcomes[0].event] + Published(outcomes[1..])
    else Published(outcomes[1..])
  }

  /** The rows the broker stored: the sent ones without an error, and some of those with one. */
  ghost function Stored(cfg: Config, events: seq<Event>, errs: seq<Option<PubErr>>, lost: set<nat>): set<nat>
    requires |errs| == |events|
  {
    lost + set i | 0 <= i < |events| && !Superseded(events, cfg.prefixes, i) && errs[i].None? :: events[i].id
  }

  /** The superseded rows of a batch, each with the winner of its subject. */
  ghost function Beats(cfg: Config, events: seq<Event>): set<(nat, nat)> {
    set i, k | 0 <= i < |events| && 0 <= k < |events| && Superseded(events, cfg.prefixes, i)
      && events[k].topic == events[i].topic && Wins(events, k, |events|) :: (events[i].id, events[k].id)
  }

  /** Event i is row id, and it was sent but got no confirmation. */
  ghost predicate SentInVain(cfg: Config, events: seq<Event>, errs: seq<Option<PubErr>>, i: int, id: nat)
    requires |errs| == |events|
  {
    0 <= i < |events| && events[i].id == id && errs[i].Some? && !Superseded(events, cfg.prefixes, i)
  }

  predicate Exhausted(cfg: Config, attempts: int) {
    cfg.maxAttempts > 0 && attempts >= cfg.maxAttempts
  }

  /** The row after a failed publish: attempts come from the claim, a lost connection is not counted. */
  function Reverted(cfg: Config, row: Row, o: Outcome, at: int): Row
    requires o.err.Some?
  {
    var counted := !IsTransport(o.err.value);
    var attempts := o.event.attempts + if counted then 1 else 0;
    var failed := row.(attempts := attempts, lastError := o.err);
    if Exhausted(cfg, attempts) then failed.(state := Parked, nextAttemptAt := None)
    else failed.(state := Pending, nextAttemptAt := if counted then Some(at) else None)
  }

  /** The row a drain puts back: an unknown outcome is not counted. */
  function Restored(cfg: Config, row: Row, o: Outcome, at: int): Row
    requires o.err.Some?
  {
    var failed := row.(lastError := o.err);
    if UnknownOutcome(o.err.value) then failed.(state := Pending, attempts := o.event.attempts, nextAttemptAt := Some(at))
    else
      var attempts := o.event.attempts + 1;
      if Exhausted(cfg, attempts) then failed.(state := Parked, attempts := attempts, nextAttemptAt := None)
      else failed.(state := Pending, attempts := attempts, nextAttemptAt := Some(at))
  }

  /** Published rows are deleted, or marked as done. */
  function CloseRows(cfg: Config, rows: map<nat, Row>, ids: set<nat>): map<nat, Row> {
    if cfg.deleteAfterSend then rows - ids
    else map id | id in rows :: if id in ids then rows[id].(state := Done) else rows[id]
  }

  /** The failed outcome of a row, if it has one. */
  function FailureOf(outcomes: seq<Outcome>, id: nat): (o: Option<Outcome>)
    ensures o.Some? ==> o.value in outcomes && o.value.event.id == id && o.value.err.Some?
    ensures o.None? ==> forall k :: 0 <= k < |outcomes| && outcomes[k].event.id == id ==> outcomes[k].err.None?
  {
    if outcomes == [] then None
    else if outcomes[0].event.id == id && outcomes[0].err.Some? then Some(outcomes[0])
    else FailureOf(outcomes[1..], id)
  }

  function DrainedRows(cfg: Config, rows: map<nat, Row>, outcomes: seq<Outcome>, at: nat -> int): map<nat, Row> {
    var kept := CloseRows(cfg, rows, Ids(Published(outcomes)));
    map id | id in kept ::
      if FailureOf(outcomes, id).Some? then Restored(cfg, kept[id], FailureOf(outcomes, id).value, at(id)) else kept[id]
  }

  function DrainedFailures(failures: map<nat, nat>, outcomes: seq<Outcome>): map<nat, nat> {
    map id | id in failures ::
      if FailureOf(outcomes, id).Some? && !UnknownOutcome(FailureOf(outcomes, id).value.err.value)
      then failures[id] + 1 else failures[id]
  }

  /** What each statement needs. A write by id waits for a drain that locks the row. */
  ghost predicate Enabled(cfg: Config, s: System, step: Step) {
    match step
    case Insert(id, _, _, _) => id !in s.topics
    case Claim(relay, ids, now, stalled) =>
      && WorkOf(s, relay).Idle? && Distinct(ids)
      && forall k :: 0 <= k < |ids| ==>
           ids[k] in s.rows && !Locked(s, ids[k])
           && (Due(s.rows[ids[k]], now) || (stalled && Stalled(cfg, s.rows[ids[k]], now)))
    case Reclaim(ids, now) => forall id :: id in ids ==> id in s.rows && Stalled(cfg, s.rows[id], now)
    case Publish(relay, errs, lost) =>
      && (WorkOf(s, relay).Claimed? || (WorkOf(s, relay).Draining? && WorkOf(s, relay).outcomes.None?))
      && var events := HeldBy(WorkOf(s, relay));
         && |errs| == |events|
         && forall id :: id in lost ==> exists i :: SentInVain(cfg, events, errs, i, id)
    case Revert(relay, k, written, _) =>
      && WorkOf(s, relay).Settling? && k < |WorkOf(s, relay).failed|
      && WorkOf(s, relay).failed[k].err.Some?
      && (written ==> !Locked(s, WorkOf(s, relay).failed[k].event.id))
    case Close(relay, written) =>
      && WorkOf(s, relay).Settling? && WorkOf(s, relay).failed == []
      && (written ==> forall id :: id in Ids(WorkOf(s, relay).published) ==> !Locked(s, id))
    case DrainClaim(relay, ids, now) =>
      && WorkOf(s, relay).Idle? && Distinct(ids)
      && forall k :: 0 <= k < |ids| ==> ids[k] in s.rows && !Locked(s, ids[k]) && Due(s.rows[ids[k]], now)
    case DrainCommit(relay, _) => WorkOf(s, relay).Draining? && WorkOf(s, relay).outcomes.Some?
    case DrainRollback(relay) => WorkOf(s, relay).Draining?
    case Requeue(ids) => forall id :: id in ids ==> id in s.rows && s.rows[id].state == Parked
    case Cleanup(ids) => forall id :: id in ids ==> id in s.rows && s.rows[id].state == Done
    case Crash(_) => true
  }

  ghost function Apply(cfg: Config, s: System, step: Step): System
    requires Enabled(cfg, s, step)
  {
    match step
    case Insert(id, topic, version, now) =>
      s.(rows := s.rows[id := Row(topic, version, Pending, 0, None, now, None)],
         topics := s.topics[id := topic], versions := s.versions[id := version], failures := s.failures[id := 0])
    case Claim(relay, ids, now, _) =>
      s.(rows := map id | id in s.rows :: if id in ids then s.rows[id].(state := InFlight, updatedAt := now) else s.rows[id],
         relays := s.relays[relay := Claimed(EventsAt(s.rows, ids))])
    case Reclaim(ids, now) =>
      s.(rows := map id | id in s.rows :: if id in ids then s.rows[id].(state := Pending, updatedAt := now) else s.rows[id])
    case Publish(relay, errs, lost) =>
      var events := HeldBy(WorkOf(s, relay));
      var outcomes := OutcomesOf(cfg, events, errs);
      var stored := Stored(cfg, events, errs, lost);
      s.(relays := s.relays[relay := if WorkOf(s, relay).Claimed? then Settling(Failed(outcomes), Published(outcomes))
                                     else Draining(events, Some(outcomes))],
         accepted := s.accepted + stored, beaten := s.beaten + Beats(cfg, events),
         served := s.served + set id | id in s.topics && exists y :: y in stored && y in s.topics && s.topics[y] == s.topics[id])
    case Revert(relay, k, written, at) =>
      var work := WorkOf(s, relay);
      var o := work.failed[k];
      var id := o.event.id;
      var rest := s.(relays := s.relays[relay := Settling(work.failed[..k] + work.failed[k + 1..], work.published)]);
      if written && id in s.rows then
        rest.(rows := s.rows[id := Reverted(cfg, s.rows[id], o, at)],
              failures := if IsTransport(o.err.value) || id !in s.failures then s.failures
                          else s.failures[id := s.failures[id] + 1])
      else rest
    case Close(relay, written) =>
      s.(rows := if written then CloseRows(cfg, s.rows, Ids(WorkOf(s, relay).published)) else s.rows,
         relays := s.relays[relay := Idle])
    case DrainClaim(relay, ids, _) => s.(relays := s.relays[relay := Draining(EventsAt(s.rows, ids), None)])
    case DrainCommit(relay, times) =>
      var outcomes := WorkOf(s, relay).outcomes.value;
      s.(rows := DrainedRows(cfg, s.rows, outcomes, times), failures := DrainedFailures(s.failures, outcomes),
         relays := s.relays[relay := Idle])
    case DrainRollback(relay) => s.(relays := s.relays[relay := Idle])
    case Requeue(ids) =>
      s.(rows := map id | id in s.rows ::
           if id in ids then s.rows[id].(state := Pending, attempts := 0, nextAttemptAt := None) else s.rows[id],
         failures := map id | id in s.failures :: if id in ids then 0 else s.failures[id])
    case Cleanup(ids) => s.(rows := s.rows - ids)
    case Crash(relay) => s.(relays := s.relays[relay := Idle])
  }

  /** Any interleaving: a step that is not enabled changes nothing. */
  ghost function Run(cfg: Config, steps: seq<Step>): System {
    if steps == [] then EMPTY
    else
      var s := Run(cfg, steps[..|steps| - 1]);
      if Enabled(cfg, s, steps[|steps| - 1]) then Apply(cfg, s, steps[|steps| - 1]) else s
  }
}
