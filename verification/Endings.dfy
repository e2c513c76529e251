/** How each transaction of a handle call ends, told from what happened around it and what the handler replied, and what
    that means for effects: no message is acked without them, and no key is claimed without them. */
module Endings {
  import opened BatchTypes
  import opened Attempts
  import opened Groups
  import opened AttemptFacts
  import opened Bisection
  import opened Interleaving
  import opened BatchRuns
  import opened BatchHandler
  import opened Transactions

  /** The handler answered every message it was called for, or needs not to. */
  ghost predicate AnsweredAll(c: Ctx, chosen: seq<nat>, reply: Reply) {
    chosen != [] ==> reply.Answered? && (c.perMessage ==> |reply.results| == |chosen|)
  }

  /** An ack stands behind a message of its order key that was not acked. */
  ghost predicate AcksBehindFailure(c: Ctx, chosen: seq<nat>, results: seq<Result>)
    requires InRange(c, chosen) && |results| == |chosen|
  {
    exists p, q :: 0 <= p < q < |chosen| && c.OrderKey(chosen[p]) == c.OrderKey(chosen[q]) && !Acked(results[p])
        && Acked(results[q])
  }

  /** The verdicts are the replies for the fresh messages, each for its own. */
  ghost predicate VerdictsAre(chosen: seq<nat>, results: seq<Result>, verdicts: map<nat, Result>)
    requires |results| == |chosen|
  {
    && (forall i :: i in verdicts ==> i in chosen)
    && forall p :: 0 <= p < |chosen| ==> chosen[p] in verdicts && verdicts[chosen[p]] == results[p]
  }

  ghost predicate SomeFailed(results: seq<Result>) {
    exists p :: 0 <= p < |results| && !Acked(results[p])
  }

  /** Everything went well: the claims, the handler, the release of the claims of failed messages, and the commit. */
  ghost predicate EndsWell(c: Ctx, chosen: seq<nat>, around: Surroundings, reply: Reply, verdicts: map<nat, Result>)
    requires InRange(c, chosen)
  {
    && (c.dedup ==> around.claimErr.None?) && around.commitErr.None? && AnsweredAll(c, chosen, reply)
    && (if chosen == [] || !c.perMessage then verdicts == map[]
        else
          && VerdictsAre(chosen, reply.results, verdicts)
          && (c.ordered ==> !AcksBehindFailure(c, chosen, reply.results))
          && (c.dedup && SomeFailed(reply.results) ==> around.releaseErr.None?))
  }

  ghost predicate EndsInViolation(c: Ctx, chosen: seq<nat>, around: Surroundings, reply: Reply)
    requires InRange(c, chosen)
  {
    && (c.dedup ==> around.claimErr.None?) && chosen != [] && c.ordered && c.perMessage && AnsweredAll(c, chosen, reply)
    && AcksBehindFailure(c, chosen, reply.results)
  }

  /** The first thing that went wrong. */
  ghost predicate EndsInFault(c: Ctx, chosen: seq<nat>, around: Surroundings, reply: Reply, err: Error)
    requires InRange(c, chosen)
  {
    if c.dedup && around.claimErr.Some? then around.claimErr == Some(err)
    else if chosen != [] && reply.Panicked? then err == ERR_HANDLER_PANIC
    else if chosen != [] && reply.Refused? then reply.err == err
    else if !AnsweredAll(c, chosen, reply) then err == ERR_MISSING_RESULT
    else if chosen != [] && c.ordered && c.perMessage && AcksBehindFailure(c, chosen, reply.results) then false
    else if chosen != [] && c.perMessage && c.dedup && SomeFailed(reply.results) && around.releaseErr.Some? then
      around.releaseErr == Some(err)
    else around.commitErr == Some(err)
  }

  /** How transaction t ended that was for the messages of x and found the claims seen. */
  ghost predicate Told(c: Ctx, x: Entry, seen: set<string>, t: nat) {
    InRange(c, x.subset) &&
    var chosen := Fresh(c, x.subset, seen);
    var around, reply := c.oracle.around(t), c.oracle.apply(t, chosen);
    match x.outcome
    case Committed(verdicts) => EndsWell(c, chosen, around, reply, verdicts)
    case RolledBack(Violation(blocked)) => EndsInViolation(c, chosen, around, reply)
    case RolledBack(Fault(err)) => EndsInFault(c, chosen, around, reply, err)
  }

  /** The three ends exclude each other, and a fault has one cause: so each of them is reached exactly when it is told. */
  lemma EndsOneWay(c: Ctx, chosen: seq<nat>, around: Surroundings, reply: Reply, verdicts: map<nat, Result>, err: Error,
                   other: Error)
    requires InRange(c, chosen)
    ensures EndsWell(c, chosen, around, reply, verdicts) ==>
      !EndsInViolation(c, chosen, around, reply) && !EndsInFault(c, chosen, around, reply, err)
    ensures EndsInViolation(c, chosen, around, reply) ==> !EndsInFault(c, chosen, around, reply, err)
    ensures EndsInFault(c, chosen, around, reply, err) && EndsInFault(c, chosen, around, reply, other) ==> err == other
  {
    hide AcksBehindFailure, SomeFailed, VerdictsAre;
  }

  lemma VerdictsTell(chosen: seq<nat>, applied: seq<Result>)
    requires |chosen| == |applied| && NoRepeat(chosen)
    ensures VerdictsAre(chosen, applied, Verdicts(chosen, applied))
  {
    hide Verdicts;
    VerdictsDomain(chosen, applied);
    forall p | 0 <= p < |chosen|
      ensures chosen[p] in Verdicts(chosen, applied) && Verdicts(chosen, applied)[chosen[p]] == applied[p]
    {
      VerdictsAt(chosen, applied, p);
    }
  }

  lemma ViolationTells(c: Ctx, chosen: seq<nat>, applied: seq<Result>)
    requires InRange(c, chosen) && |applied| == |chosen| && NoRepeat(chosen)
    ensures OrderViolations(c, chosen, applied) != [] <==> AcksBehindFailure(c, chosen, applied)
  {
    var blocked := OrderViolations(c, chosen, applied);
    if blocked != [] {
      assert blocked[0] in blocked;
      var p := IndexOf(chosen, blocked[0]);
      ViolationAt(c, chosen, applied, |chosen|, p);
      var a :| 0 <= a < |chosen| && c.OrderKey(chosen[a]) == c.OrderKey(chosen[p]) && Acked(applied[a])
          && FailsBefore(c, chosen, applied, a);
    }
    if AcksBehindFailure(c, chosen, applied) {
      var p, q :| 0 <= p < q < |chosen| && c.OrderKey(chosen[p]) == c.OrderKey(chosen[q]) && !Acked(applied[p])
          && Acked(applied[q]);
      Violates(c, chosen, applied, p, q);
      ViolationAt(c, chosen, applied, |chosen|, q);
    }
  }

  lemma ReleasedTells(c: Ctx, chosen: seq<nat>, applied: seq<Result>)
    requires InRange(c, chosen) && |applied| == |chosen| && NoRepeat(chosen)
    ensures Released(c, chosen, Verdicts(chosen, applied)) != {} <==> SomeFailed(applied)
  {
    var verdicts := Verdicts(chosen, applied);
    VerdictsTell(chosen, applied);
    hide Verdicts;
    if SomeFailed(applied) {
      var p :| 0 <= p < |applied| && !Acked(applied[p]);
      assert c.Key(chosen[p]) in Released(c, chosen, verdicts);
    }
    if Released(c, chosen, verdicts) != {} {
      var key :| key in Released(c, chosen, verdicts);
      var i :| i in chosen && i in verdicts && !Acked(verdicts[i]) && c.Key(i) == key;
      var p := IndexOf(chosen, i);
    }
  }

  /** A transaction ends as it is told. */
  lemma EndingIsTold(c: Ctx, subset: seq<nat>, seen: set<string>, t: nat)
    requires InRange(c, subset) && Ascending(subset)
    ensures Told(c, Entry(subset, Ending(c, subset, seen, t)), seen, t)
  {
    hide Fresh, Verdicts, Released, OrderViolations, VerdictsAre, AcksBehindFailure, SomeFailed;
    var chosen := Fresh(c, subset, seen);
    FreshAscends(c, subset, seen);
    AscendsNoRepeat(chosen);
    var reply := c.oracle.apply(t, chosen);
    NothingReleased(c, chosen);
    if reply.Answered? && |reply.results| == |chosen| {
      VerdictsTell(chosen, reply.results);
      ViolationTells(c, chosen, reply.results);
      ReleasedTells(c, chosen, reply.results);
    }
  }

  lemma NothingReleased(c: Ctx, chosen: seq<nat>)
    requires InRange(c, chosen)
    ensures Released(c, chosen, map[]) == {}
  {
  }

  /** The fresh messages of a committed transaction that were acked have their effects in the log. */
  ghost predicate EffectsIn(c: Ctx, x: Entry, seen: set<string>, log: seq<nat>) {
    x.outcome.Committed? && InRange(c, x.subset) ==>
      var verdicts := x.outcome.verdicts;
      forall i :: i in Fresh(c, x.subset, seen) && (i in verdicts ==> Acked(verdicts[i])) ==> i in log
  }

  /** What the first transaction after s leads to: its end, its effects and its claims. */
  lemma NextTells(c: Ctx, subset: seq<nat>, s: Core)
    requires InRange(c, subset) && Ascending(subset)
    ensures var e, t := Next(c, subset, s), |s.trace|;
      var seen := s.processed + c.oracle.around(t).arrivals;
      && seen <= e.processed && s.log <= e.log && Told(c, e.trace[t], seen, t)
      && EffectsIn(c, e.trace[t], seen, e.log)
      && (forall key :: key in e.processed && key !in seen ==>
            c.dedup && exists i :: i in e.log && i < |c.msgs| && c.Key(i) == key)
  {
    hide Fresh, Ending, Told, AckedOf, Released;
    var t := |s.trace|;
    var seen := s.processed + c.oracle.around(t).arrivals;
    EndingIsTold(c, subset, seen, t);
    var outcome := Ending(c, subset, seen, t);
    AttemptKeeps(c, subset, State(s.processed, s.log, 0, [], [], s.trace));
    if outcome.Committed? {
      var e := Next(c, subset, s);
      var chosen := Fresh(c, subset, seen);
      assert e.log == s.log + AckedOf(chosen, outcome.verdicts);
      forall i
        ensures i in AckedOf(chosen, outcome.verdicts) <==> i in chosen && (i in outcome.verdicts ==> Acked(outcome.verdicts[i]))
      {
        AckedOfMember(chosen, outcome.verdicts, i);
      }
      forall key | key in e.processed && key !in seen ensures c.dedup && exists i :: i in e.log && i < |c.msgs| && c.Key(i) == key {
        var i := ClaimedBy(c, subset, seen, outcome.verdicts, key);
        assert i in AckedOf(chosen, outcome.verdicts);
      }
    }
  }

  /** A new claim that is not given back is that of a fresh message that was acked. */
  lemma ClaimedBy(c: Ctx, subset: seq<nat>, seen: set<string>, verdicts: map<nat, Result>, key: string) returns (i: nat)
    requires InRange(c, subset) && Ascending(subset) && c.dedup
    requires key in Keys(c, subset) && key !in seen && key !in Released(c, Fresh(c, subset, seen), verdicts)
    ensures i in Fresh(c, subset, seen) && i < |c.msgs| && c.Key(i) == key && (i in verdicts ==> Acked(verdicts[i]))
  {
    var j :| j in subset && c.Key(j) == key;
    i := FreshOf(c, subset, seen, j);
  }

  /** The fresh message of a key that is not claimed. */
  lemma {:induction false} FreshOf(c: Ctx, subset: seq<nat>, seen: set<string>, j: nat) returns (i: nat)
    requires InRange(c, subset) && Ascending(subset) && c.dedup && j in subset && c.Key(j) !in seen
    ensures i in Fresh(c, subset, seen) && i < |c.msgs| && c.Key(i) == c.Key(j)
    decreases j
  {
    if j in Fresh(c, subset, seen) {
      i := j;
    } else {
      NotFresh(c, subset, seen, j);
      var h :| h in subset && h < j && c.Key(h) == c.Key(j);
      i := FreshOf(c, subset, seen, h);
    }
  }

  /** A key that others claimed during the call. */
  ghost predicate Arrives(c: Ctx, n: nat, key: string) {
    exists t: nat :: t < n && key in c.oracle.around(t).arrivals
  }

  /** A key claimed by the committed effects of a message. */
  ghost predicate HasEffects(c: Ctx, e: Core, key: string) {
    c.dedup && exists i :: i in e.log && i < |c.msgs| && c.Key(i) == key
  }

  /** The end of transaction t is told by what it found, and its effects are in the log. */
  ghost predicate Ends(c: Ctx, s: Core, e: Core, t: nat)
    requires t < |e.trace|
  {
    exists seen :: s.processed <= seen && Told(c, e.trace[t], seen, t)
      && EffectsIn(c, e.trace[t], seen, e.log)
  }

  lemma {:induction false} StepsTell(c: Ctx, s: Core, e: Core)
    requires Steps(c, s, e)
    ensures s.log <= e.log && s.trace <= e.trace
    ensures forall t: nat :: |s.trace| <= t < |e.trace| ==> Ends(c, s, e, t)
    ensures forall key :: key in e.processed ==> key in s.processed || Arrives(c, |e.trace|, key) || HasEffects(c, e, key)
    decreases |e.trace| - |s.trace|
  {
    hide Next, Told, Fresh;
    if |s.trace| < |e.trace| {
      var subset := e.trace[|s.trace|].subset;
      var m := Next(c, subset, s);
      NextTells(c, subset, s);
      StepsTell(c, m, e);
      StepsGrow(c, m, e);
      assert e.trace[|s.trace|] == m.trace[|s.trace|];
      forall t: nat | |s.trace| <= t < |e.trace| ensures Ends(c, s, e, t) {
        if t == |s.trace| {
          assert s.processed <= s.processed + c.oracle.around(t).arrivals;
        } else {
          assert Ends(c, m, e, t);
        }
      }
    }
  }

  /** Every transaction of a call ends as the claims, the handler and the database make it end, and a commit puts the
      effects of all its fresh acked messages into the log. */
  lemma EveryEndIsTold(c: Ctx, processed: set<string>, budget: nat, t: nat)
    requires t < |Handle(c, processed, budget).trace|
    ensures Ends(c, Core(processed, [], []), CoreOf(Handle(c, processed, budget)), t)
  {
    hide Handle, Ends;
    HandleSteps(c, processed, budget);
    StepsTell(c, Core(processed, [], []), CoreOf(Handle(c, processed, budget)));
  }

  /** No claim without effects: a key that is claimed after a call was claimed before it, or by others meanwhile, or the
      call committed the effects of a message with it. */
  lemma ClaimsHaveEffects(c: Ctx, processed: set<string>, budget: nat, key: string)
    requires key in Handle(c, processed, budget).processed
    ensures var e := Handle(c, processed, budget);
      || key in processed
      || (exists t: nat :: t < |e.trace| && key in c.oracle.around(t).arrivals)
      || (c.dedup && exists i :: i in e.log && i < |c.msgs| && c.Key(i) == key)
  {
    hide Handle, Ends;
    HandleSteps(c, processed, budget);
    StepsTell(c, Core(processed, [], []), CoreOf(Handle(c, processed, budget)));
  }

  lemma {:induction false} AllAreFresh(c: Ctx, subset: seq<nat>, seen: set<string>)
    requires InRange(c, subset) && !c.dedup
    ensures Fresh(c, subset, seen) == subset
  {
    if subset != [] {
      AllAreFresh(c, subset[..|subset| - 1], seen);
    }
  }

  /** No ack without effects: an acked message was committed by the call. With deduplication its effects may be those of
      a message with its key that was committed before, by others or by this call, unless it repeats an earlier message
      of the batch that was not acked. */
  lemma AckedHasEffects(c: Ctx, processed: set<string>, budget: nat, i: nat)
    requires i < |c.msgs|
    ensures var e := Handle(c, processed, budget);
      |e.results| == |c.msgs| && (Acked(e.results[i]) ==>
        if !c.dedup then i in e.log
        else
          || c.Key(i) in processed
          || (exists t: nat :: t < |e.trace| && c.Key(i) in c.oracle.around(t).arrivals)
          || (exists j :: j in e.log && j < |c.msgs| && c.Key(j) == c.Key(i))
          || exists j :: 0 <= j < i && c.Key(j) == c.Key(i) && !Acked(e.results[j]))
  {
    hide Handle, Ends, Given;
    var e := Handle(c, processed, budget);
    TransientAnswerNeedsMore(c, processed, budget, i);
    if c.dedup {
      AckedIsClaimed(c, processed, budget, i);
      if c.Key(i) in e.processed {
        ClaimsHaveEffects(c, processed, budget, c.Key(i));
      }
    } else if Acked(e.results[i]) {
      var k := AckedByCommit(c, budget, e, i);
      EveryEndIsTold(c, processed, budget, k);
      CommittedEffects(c, processed, e, k, i);
    }
  }

  lemma AckedByCommit(c: Ctx, budget: nat, e: State, i: nat) returns (k: nat)
    requires i < |e.results| && Given(c, budget, e, i) && Acked(e.results[i])
    ensures k < |e.trace| && i in e.trace[k].subset && e.trace[k].outcome.Committed?
    ensures var verdicts := e.trace[k].outcome.verdicts; i in verdicts ==> Acked(verdicts[i])
  {
    k :| k < |e.trace| && Gives(c, budget, e.trace, k, i, e.results[i]);
  }

  lemma CommittedEffects(c: Ctx, processed: set<string>, e: State, k: nat, i: nat)
    requires !c.dedup && k < |e.trace| && Ends(c, Core(processed, [], []), CoreOf(e), k)
    requires i in e.trace[k].subset && e.trace[k].outcome.Committed?
    requires var verdicts := e.trace[k].outcome.verdicts; i in verdicts ==> Acked(verdicts[i])
    ensures i in e.log
  {
    hide Fresh;
    var seen :| processed <= seen && Told(c, e.trace[k], seen, k) && EffectsIn(c, e.trace[k], seen, e.log);
    AllAreFresh(c, e.trace[k].subset, seen);
  }

  /** What a message is told that a call cannot settle: a held one waits for the transient delay behind the sentinel that
      keeps its attempts, a transient error waits for that delay too, and without one both wait as any other failure. */
  lemma AnswersInFull(opts: Ctx, err: Error)
    ensures var c := Normalised(opts);
      && var held := Blocked(c);
      && var transient := TransientResult(c, err);
      && !Acked(held) && !Acked(transient)
      && held.err == Some(ERR_ORDER_BLOCKED) && OrderBlocked in held.err.value.chain && transient.err == Some(err)
      && (opts.transientDelay > 0 ==>
            && held.verdict == transient.verdict == VerdictNakDelay && held.delay == transient.delay == opts.transientDelay)
      && (opts.transientDelay <= 0 ==> transient.verdict == VerdictNak && held.delay == 0)
  {
  }

  /** Without a retry budget in the options two transient errors of a call are retried, with a negative one none. */
  lemma BudgetOfOptions(c: Ctx, processed: set<string>, opt: int, k: nat)
    requires k < |Handle(c, processed, RetryBudget(opt)).trace| && Transient(c, Handle(c, processed, RetryBudget(opt)).trace[k])
    ensures var e := Handle(c, processed, RetryBudget(opt));
      var before := Transients(c, e.trace[..k]);
      && |e.results| == |c.msgs|
      && ((opt == 0 && before < 2) || (opt > 0 && before < opt) ==>
            k + 1 < |e.trace| && e.trace[k + 1].subset == e.trace[k].subset)
      && (opt < 0 || (opt == 0 && before >= 2) || (opt > 0 && before >= opt) ==>
            forall i :: i in e.trace[k].subset && i < |c.msgs| ==>
              e.results[i] == TransientResult(c, e.trace[k].outcome.failure.err))
  {
    hide Handle, Transients, TransientResult;
    RetriesAreSpent(c, processed, RetryBudget(opt));
    assert RetriedAt(c, RetryBudget(opt), Handle(c, processed, RetryBudget(opt)), k);
  }
}
