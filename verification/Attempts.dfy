/** One transaction attempt of InTx: claims, the handler, order violations, released claims, commit or rollback. */
module Attempts {
  import opened BatchTypes

  datatype Failure = Violation(blocked: seq<nat>) | Fault(err: Error)

  datatype Outcome = Committed(verdicts: map<nat, Result>) | RolledBack(failure: Failure)

  /** One opened transaction: the messages it was for and how it ended. */
  datatype Entry = Entry(subset: seq<nat>, outcome: Outcome)

  /** What one handle call works on. log holds the indexes whose effects were committed, in commit
      order; writes holds the result slots in the order they were written. */
  datatype State = State(processed: set<string>,
                         log: seq<nat>,
                         budget: nat,
                         results: seq<Result>,
                         writes: seq<nat>,
                         trace: seq<Entry>)

  /** The messages of subset that are neither claimed before nor a repeat inside subset. */
  function Fresh(c: Ctx, subset: seq<nat>, processed: set<string>): (indexes: seq<nat>)
    requires InRange(c, subset)
    ensures InRange(c, indexes)
    ensures forall i :: i in indexes ==> i in subset
  {
    if subset == [] then []
    else
      var init, last := subset[..|subset| - 1], subset[|subset| - 1];
      Fresh(c, init, processed) +
      (if !c.dedup || (c.Key(last) !in processed && c.Key(last) !in Keys(c, init)) then [last] else [])
  }

  /** Some message before position p has the order key of p and was not acked. */
  ghost predicate FailsBefore(c: Ctx, idxs: seq<nat>, applied: seq<Result>, p: int)
    requires InRange(c, idxs) && |applied| == |idxs| && 0 <= p < |idxs|
  {
    exists f :: 0 <= f < p && c.OrderKey(idxs[f]) == c.OrderKey(idxs[p]) && !Acked(applied[f])
  }

  /** An ack after a non-ack of the same order key. */
  ghost predicate ViolatedKey(c: Ctx, idxs: seq<nat>, applied: seq<Result>, key: string)
    requires InRange(c, idxs) && |applied| == |idxs|
  {
    exists a :: 0 <= a < |idxs| && c.OrderKey(idxs[a]) == key && Acked(applied[a]) && FailsBefore(c, idxs, applied, a)
  }

  /** The first n positions of every violated key that lie after its first failure. */
  ghost function ViolationsUpTo(c: Ctx, idxs: seq<nat>, applied: seq<Result>, n: nat): (blocked: seq<nat>)
    requires InRange(c, idxs) && |applied| == |idxs| && n <= |idxs|
    ensures forall i :: i in blocked ==> i in idxs
  {
    if n == 0 then []
    else
      ViolationsUpTo(c, idxs, applied, n - 1) +
      (if ViolatedKey(c, idxs, applied, c.OrderKey(idxs[n - 1])) && FailsBefore(c, idxs, applied, n - 1)
       then [idxs[n - 1]] else [])
  }

  ghost function OrderViolations(c: Ctx, idxs: seq<nat>, applied: seq<Result>): (blocked: seq<nat>)
    requires InRange(c, idxs) && |applied| == |idxs|
    ensures forall i :: i in blocked ==> i in idxs
  {
    ViolationsUpTo(c, idxs, applied, |idxs|)
  }

  function Verdicts(indexes: seq<nat>, applied: seq<Result>): (verdicts: map<nat, Result>)
    requires |applied| == |indexes|
  {
    if indexes == [] then map[]
    else Verdicts(indexes[..|indexes| - 1], applied[..|indexes| - 1])[indexes[|indexes| - 1] := applied[|indexes| - 1]]
  }

  /** The fresh messages that the handler acked, in order. */
  function AckedOf(indexes: seq<nat>, verdicts: map<nat, Result>): (acked: seq<nat>)
    ensures forall i :: i in acked ==> i in indexes && (i in verdicts ==> Acked(verdicts[i]))
  {
    if indexes == [] then []
    else
      var last := indexes[|indexes| - 1];
      AckedOf(indexes[..|indexes| - 1], verdicts) + (if last in verdicts && !Acked(verdicts[last]) then [] else [last])
  }

  /** The claims of fresh messages that were not acked. */
  function Released(c: Ctx, indexes: seq<nat>, verdicts: map<nat, Result>): set<string>
    requires InRange(c, indexes)
  {
    set i | i in indexes && i in verdicts && !Acked(verdicts[i]) :: c.Key(i)
  }

  /** What the handler's reply leads to, before the release of claims and the commit. */
  ghost function Judged(c: Ctx, indexes: seq<nat>, reply: Reply): Outcome
    requires InRange(c, indexes)
  {
    match reply
    case Panicked => RolledBack(Fault(ERR_HANDLER_PANIC))
    case Refused(err) => RolledBack(Fault(err))
    case Answered(applied) =>
      if !c.perMessage then Committed(map[])
      else if |applied| != |indexes| then RolledBack(Fault(ERR_MISSING_RESULT))
      else if c.ordered && OrderViolations(c, indexes, applied) != [] then
        RolledBack(Violation(OrderViolations(c, indexes, applied)))
      else Committed(Verdicts(indexes, applied))
  }

  /** How the t-th transaction ends when it is for subset and the table holds seen. */
  ghost function Ending(c: Ctx, subset: seq<nat>, seen: set<string>, t: nat): Outcome
    requires InRange(c, subset)
  {
    var around := c.oracle.around(t);
    var indexes := Fresh(c, subset, seen);
    if c.dedup && around.claimErr.Some? then RolledBack(Fault(around.claimErr.value))
    else
      var judged := if indexes == [] then Committed(map[]) else Judged(c, indexes, c.oracle.apply(t, indexes));
      if judged.RolledBack? then judged
      else if c.dedup && Released(c, indexes, judged.verdicts) != {} && around.releaseErr.Some? then
        RolledBack(Fault(around.releaseErr.value))
      else if around.commitErr.Some? then RolledBack(Fault(around.commitErr.value))
      else judged
  }

  /** The table at the start of the next transaction: other consumers only add keys. */
  function Seen(c: Ctx, s: State): set<string> {
    s.processed + c.oracle.around(|s.trace|).arrivals
  }

  /** One attempt. A rollback keeps the table and the log; a commit keeps the claims of acked and
      skipped messages and adds the fresh acked ones to the log. */
  ghost function Attempt(c: Ctx, subset: seq<nat>, s: State): (r: (State, Outcome))
    requires InRange(c, subset)
  {
    var seen := Seen(c, s);
    var outcome := Ending(c, subset, seen, |s.trace|);
    var begun := s.(processed := seen, trace := s.trace + [Entry(subset, outcome)]);
    match outcome
    case RolledBack(_) => (begun, outcome)
    case Committed(verdicts) =>
      var indexes := Fresh(c, subset, seen);
      (begun.(processed := if c.dedup then seen + Keys(c, subset) - Released(c, indexes, verdicts) else seen,
               log := s.log + AckedOf(indexes, verdicts)),
       outcome)
  }

  /** Writes value(i) to the slot of every i in idxs. */
  ghost function Write(s: State, idxs: seq<nat>, value: nat -> Result): (e: State)
    ensures |e.results| == |s.results|
  {
    s.(results := seq(|s.results|, i requires 0 <= i < |s.results| => if i in idxs then value(i) else s.results[i]),
       writes := s.writes + idxs)
  }

  ghost function Record(s: State, subset: seq<nat>, verdicts: map<nat, Result>): State {
    Write(s, subset, i => if i in verdicts then verdicts[i] else Ack())
  }

  ghost function Block(c: Ctx, s: State, idxs: seq<nat>): State {
    Write(s, idxs, i => Blocked(c))
  }
}
