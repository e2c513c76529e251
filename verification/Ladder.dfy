/** What a message is told at each of its deliveries, in terms of its delivery count, its result and the delays. */
module Ladder {
  import opened BatchTypes
  import opened Settling

  /** An unreadable count is that of a first delivery. */
  ghost predicate OnDelivery(d: Delivery, count: nat) {
    count == if d.delivered.Some? then d.delivered.value else 1
  }

  ghost predicate Held(r: Result) {
    r.err.Some? && OrderBlocked in r.err.value.chain
  }

  ghost predicate Poisoned(r: Result) {
    r.err.Some? && Poison in r.err.value.chain
  }

  /** The message is not to come back: its result is terminal, it is poisoned, or it is out of deliveries. A held
      message is measured against the deliveries of the server only, any other against the attempts only. */
  ghost predicate Ends(cfg: Settings, r: Result, count: nat) {
    || r.verdict == VerdictTerm
    || (Held(r) && 0 < cfg.maxDeliver <= count)
    || (!Held(r) && (Poisoned(r) || 0 < cfg.maxAttempts <= count))
  }

  /** A message comes back exactly when it is not acked and not at its end, or when its hand-off is refused, and then
      it waits for the first delay, but reports none to the messages behind it. It is terminated exactly at its end, and
      after the hand-off. */
  lemma SentBackIff(p: Pass, i: nat, count: nat)
    requires i < |p.msgs| && ValidSettings(p.cfg) && OnDelivery(p.msgs[i], count)
    ensures var r := ResultAt(p, i);
      var ends := Ends(p.cfg, r, count);
      && (OpAt(p, i).NakOp? <==> !Acked(r) && (ends ==> p.cfg.onPoison && !p.accepts(i)))
      && (OpAt(p, i).TermOp? <==> !Acked(r) && ends && (p.cfg.onPoison ==> p.accepts(i)))
      && (OpAt(p, i).NakOp? && ends ==> OpAt(p, i).delay == p.cfg.delays[0])
      && (Settling.Refused(p, i) <==> OpAt(p, i).NakOp? && ends)
      && Reported(DecisionOf(p, i)) == if OpAt(p, i).NakOp? && !ends then OpAt(p, i).delay else 0
  {
    hide Returns, Floor;
  }

  /** The delay a message asks for at its count-th delivery: its own one, which a held message may bring with any verdict,
      or the count-th of the delays, and the last one from there on. */
  ghost predicate Asks(cfg: Settings, r: Result, count: nat, delay: int) {
    if r.delay > 0 && (Held(r) || r.verdict == VerdictNakDelay) then delay == r.delay
    else
      && (count == 0 && cfg.delays != [] ==> delay == cfg.delays[0])
      && (1 <= count <= |cfg.delays| ==> delay == cfg.delays[count - 1])
      && (0 < |cfg.delays| < count ==> delay == cfg.delays[|cfg.delays| - 1])
  }

  /** A message that is not at its end is told the delay it asks for, or a longer floor. */
  lemma DelayOfDelivery(p: Pass, i: nat, count: nat, delay: int)
    requires i < |p.msgs| && ValidSettings(p.cfg) && OnDelivery(p.msgs[i], count)
    requires !Acked(ResultAt(p, i)) && !Ends(p.cfg, ResultAt(p, i), count) && Asks(p.cfg, ResultAt(p, i), count, delay)
    ensures OpAt(p, i) == NakOp(if FloorOf(p, i) > delay then FloorOf(p, i) else delay)
    ensures Reported(DecisionOf(p, i)) == OpAt(p, i).delay
  {
    hide Returns, Floor;
  }

  /** With the default number of attempts every delay is waited for at exactly one delivery, in order, and the message
      is handed off at the delivery after the last delay. */
  lemma DefaultUsesEachDelayOnce(p: Pass, i: nat, count: nat)
    requires i < |p.msgs| && ValidSettings(p.cfg) && p.msgs[i].delivered == Some(count) && count > 0
    requires ResolvedAttempts(0, p.cfg.delays) == Some(p.cfg.maxAttempts)
    requires ResultAt(p, i).verdict == VerdictNak && !Held(ResultAt(p, i)) && !Poisoned(ResultAt(p, i))
    requires FloorOf(p, i) == 0
    ensures count <= |p.cfg.delays| ==> OpAt(p, i) == NakOp(p.cfg.delays[count - 1])
    ensures count > |p.cfg.delays| ==> DecisionOf(p, i).HandOff?
  {
    hide Returns, Floor;
  }

  /** A floor is the longest of what the shared message of message h was told so far and had to wait for itself. */
  ghost predicate LongestSoFar(p: Pass, h: nat, n: nat, time: int)
    requires h < |p.msgs| && n <= |p.msgs| && ValidSettings(p.cfg)
  {
    && (forall k :: 0 <= k < n && Together(p.msgs, h, k) ==> Reported(DecisionOf(p, k)) <= time && FloorOf(p, k) <= time)
    && (time == 0
        || exists k :: 0 <= k < n && Together(p.msgs, h, k) && (Reported(DecisionOf(p, k)) == time || FloorOf(p, k) == time))
  }

  lemma {:induction false} TimesAreLongest(p: Pass, h: nat, n: nat)
    requires h < |p.msgs| && n <= |p.msgs| && ValidSettings(p.cfg) && Contiguous(p.msgs)
    ensures LongestSoFar(p, h, n, Returns(p, n)[Start(p.msgs, h)])
  {
    hide Decide, Floor, Start, Contiguous;
    if n > 0 {
      TimesAreLongest(p, h, n - 1);
      ReturnsStep(p, n - 1);
      StartsTogether(p.msgs, h, n - 1);
    } else {
      PassBegins(p);
    }
  }

  lemma StartsTogether(msgs: seq<Delivery>, i: nat, j: nat)
    requires i < |msgs| && j < |msgs| && Contiguous(msgs)
    ensures Together(msgs, i, j) <==> Start(msgs, i) == Start(msgs, j)
  {
    if i <= j {
      TogetherStart(msgs, i, j);
    } else {
      TogetherStart(msgs, j, i);
    }
  }

  /** The floor of a message, by the message its result refers to. */
  lemma FloorIsExact(p: Pass, i: nat)
    requires i < |p.msgs| && ValidSettings(p.cfg) && Contiguous(p.msgs)
    ensures var after := ResultAt(p, i).after;
      if 0 < after <= i then LongestSoFar(p, after - 1, i, FloorOf(p, i)) else FloorOf(p, i) == 0
  {
    hide Returns, Decide, Start, LongestSoFar, Contiguous;
    if 0 < ResultAt(p, i).after <= i {
      TimesAreLongest(p, ResultAt(p, i).after - 1, i);
    }
  }

  /** The calls of a pass: every message is told once and for all what OpAt says, in batch order, and a hand-off comes
      right in front of what follows from it. */
  ghost predicate Protocol(p: Pass, calls: seq<Call>, n: nat)
    requires n <= |p.msgs| && ValidSettings(p.cfg)
  {
    && (forall i :: 0 <= i < n ==> Told(i, OpAt(p, i)) in calls)
    && (forall q :: 0 <= q < |calls| ==> calls[q].index < n)
    && (forall q, r :: 0 <= q < r < |calls| && calls[q].Told? ==> calls[q].index < calls[r].index)
    && (forall q :: 0 <= q < |calls| && calls[q].Handed? ==>
          p.cfg.onPoison && DecisionOf(p, calls[q].index) == HandOff(calls[q].reason)
          && q + 1 < |calls| && calls[q + 1].Told? && calls[q + 1].index == calls[q].index && !calls[q + 1].op.AckOp?)
    && (forall q :: 0 <= q < |calls| && calls[q].Told? && calls[q].op == TermOp && p.cfg.onPoison ==>
          q > 0 && calls[q - 1].Handed? && calls[q - 1].index == calls[q].index && p.accepts(calls[q].index))
  }

  lemma {:induction false} CallsFollowTheProtocol(p: Pass, n: nat)
    requires n <= |p.msgs| && ValidSettings(p.cfg)
    ensures Protocol(p, Calls(p, n), n)
  {
    hide CallsFor, Protocol;
    if n == 0 {
      NoCalls(p);
    } else {
      CallsFollowTheProtocol(p, n - 1);
      MoreCalls(p, Calls(p, n - 1), n - 1);
    }
  }

  lemma NoCalls(p: Pass)
    requires ValidSettings(p.cfg)
    ensures Protocol(p, [], 0)
  {
  }

  lemma MoreCalls(p: Pass, calls: seq<Call>, i: nat)
    requires i < |p.msgs| && ValidSettings(p.cfg) && Protocol(p, calls, i)
    ensures Protocol(p, calls + CallsFor(p, i), i + 1)
  {
    hide OpAt, DecisionOf;
    var more, op := CallsFor(p, i), OpAt(p, i);
    var all := calls + more;
    TermOnlyAfterHandOff(p, i);
    if DecisionOf(p, i).HandOff? {
      NotAckedWhenHandedOff(p, i);
    }
    assert all[|all| - 1] == Told(i, op);
    forall k | 0 <= k < i + 1 ensures Told(k, OpAt(p, k)) in all {
      assert k < i ==> Told(k, OpAt(p, k)) in calls;
    }
    forall q | 0 <= q < |all| && all[q].Told? && all[q].op == TermOp && p.cfg.onPoison
      ensures q > 0 && all[q - 1].Handed? && all[q - 1].index == all[q].index && p.accepts(all[q].index)
    {
      if q < |calls| {
        assert calls[q] == all[q];
        assert all[q - 1] == calls[q - 1];
      }
    }
  }

  lemma NotAckedWhenHandedOff(p: Pass, i: nat)
    requires i < |p.msgs| && ValidSettings(p.cfg) && DecisionOf(p, i).HandOff?
    ensures !OpAt(p, i).AckOp? && !Acked(ResultAt(p, i))
    ensures OpAt(p, i).TermOp? <==> p.cfg.onPoison ==> p.accepts(i)
  {
    hide Returns, Floor;
  }

  /** What the poison handler is given: the error of the result with all its sentinels. A held message on its last
      delivery is marked as exhausted, and so is a message that ran out of attempts without an error. */
  lemma ReasonOfHandOff(p: Pass, i: nat)
    requires i < |p.msgs| && ValidSettings(p.cfg) && DecisionOf(p, i).HandOff?
    ensures var r, reason := ResultAt(p, i), DecisionOf(p, i).reason;
      && (r.err.Some? ==> reason.Some? && reason.value.id == r.err.value.id && r.err.value.chain <= reason.value.chain)
      && (r.verdict == VerdictTerm || (Poisoned(r) && !Held(r)) ==> reason == r.err)
      && (r.verdict != VerdictTerm && (Held(r) || r.err.None?) ==> reason.Some? && AttemptsExhausted in reason.value.chain)
      && (!Held(r) && r.err.Some? ==> reason == r.err)
  {
    hide Returns, Floor;
  }

  /** The kind a message is counted under tells what happened to it. */
  lemma KindsTell(p: Pass, n: nat, i: nat)
    requires i < n <= |p.msgs| && ValidSettings(p.cfg)
    ensures var r := ResultAt(p, i);
      && |Kinds(p, n)| == n
      && Kinds(p, n)[i] ==
           if r.verdict == VerdictAck then SettledAck
           else if r.verdict == VerdictSkip then SettledSkip
           else if OpAt(p, i).TermOp? || Settling.Refused(p, i) then SettledPoison
           else if Held(r) then SettledBlocked
           else SettledRetry
  {
    hide Returns, Floor;
    if i < n - 1 {
      KindsTell(p, n - 1, i);
    } else if n > 1 {
      KindsTell(p, n - 1, 0);
    }
  }

  /** A handler that answers too little acks nothing by that: a message without a result comes back, or is handed off at
      its end, as a failure with the sentinel of a missing result. */
  lemma MissingResultIsAFailure(p: Pass, i: nat, count: nat)
    requires i < |p.msgs| && ValidSettings(p.cfg) && OnDelivery(p.msgs[i], count)
    ensures i < |p.results| ==> ResultAt(p, i) == p.results[i]
    ensures i >= |p.results| ==>
      var r := ResultAt(p, i);
      && !OpAt(p, i).AckOp? && FloorOf(p, i) == 0
      && r.verdict == VerdictNak && r.delay == 0 && r.err == Some(ERR_MISSING_RESULT) && MissingResult in r.err.value.chain
      && (DecisionOf(p, i).HandOff? <==> 0 < p.cfg.maxAttempts <= count)
  {
    hide Returns;
  }
}
