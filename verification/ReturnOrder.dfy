/** Exactly when the answers of the batch handler come back in the order of their order key. */
module ReturnOrder {
  import opened BatchTypes
  import opened Attempts
  import opened Groups
  import opened AttemptFacts
  import opened Bisection
  import opened Soundness
  import opened BatchRuns
  import opened Links
  import opened BatchHandler
  import opened Settling

  /** The server counts deliveries from 1. */
  ghost predicate Counted(msgs: seq<Delivery>) {
    forall i :: 0 <= i < |msgs| && msgs[i].delivered.Some? ==> msgs[i].delivered.value >= 1
  }

  /** p settles the answers of a handler call; i was not acked and j, which is behind i in its order key and
      not settled together with it, is sent back. */
  ghost predicate Behind(c: Ctx, processed: set<string>, budget: nat, p: Pass, i: nat, j: nat) {
    && c.ordered && p.results == Answers(c, processed, budget)
    && |p.msgs| == |p.results| == |c.msgs| && ValidSettings(p.cfg) && Contiguous(p.msgs) && Counted(p.msgs)
    && i < j < |p.msgs| && c.OrderKey(i) == c.OrderKey(j) && !Together(p.msgs, i, j)
    && !Acked(p.results[i]) && OpAt(p, j).NakOp?
  }

  /** The shared message of i comes back no later than j asks to. */
  ghost predicate ReturnsFirst(p: Pass, i: nat, j: nat)
    requires ValidSettings(p.cfg) && i < |p.msgs| && j < |p.msgs| && OpAt(p, j).NakOp?
  {
    forall early, late :: FrameSettlement.Longest(Asked(p, i), early) && FrameSettlement.Longest(Asked(p, j), late) ==>
      early <= OpAt(p, j).delay <= late
  }

  /** For every handler, claimed set, budget, batch of deliveries and poison handler. */
  ghost predicate ReturnsInOrder(cfg: Settings) {
    forall c: Ctx, processed: set<string>, budget: nat, p: Pass, i: nat, j: nat ::
      p.cfg == cfg && Behind(c, processed, budget, p, i, j) ==> ReturnsFirst(p, i, j)
  }

  /** Nothing is handed off to be refused, or every failed message is handed off on its first delivery. */
  predicate NoRefusalBetween(cfg: Settings) {
    !cfg.onPoison || (cfg.maxDeliver == 1 && cfg.maxAttempts == 1)
  }

  lemma AnswersAreLinked(c: Ctx, processed: set<string>, budget: nat)
    requires c.ordered
    ensures var results := Handle(c, processed, budget).results;
      |results| == |c.msgs| && Answers(c, processed, budget) == LinkAll(c, results)
  {
    hide Handle;
    EverySlotOnce(c, processed, budget);
  }

  lemma NeverRefusedInOrder(c: Ctx, processed: set<string>, budget: nat, p: Pass, i: nat, j: nat)
    requires Behind(c, processed, budget, p, i, j) && !p.cfg.onPoison
    ensures ReturnsFirst(p, i, j)
  {
    hide Handle, LinkAll, Answers, Asked, DecisionOf;
    AnswersAreLinked(c, processed, budget);
    NoneRefused(p);
    forall early, late | FrameSettlement.Longest(Asked(p, i), early) && FrameSettlement.Longest(Asked(p, j), late)
      ensures early <= OpAt(p, j).delay <= late
    {
      ReturnTimeOrder(c, p, Handle(c, processed, budget).results, i, j, early, late);
    }
  }

  lemma NoneRefused(p: Pass)
    requires ValidSettings(p.cfg) && !p.cfg.onPoison
    ensures forall k: nat :: k < |p.msgs| ==> !Settling.Refused(p, k)
  {
    hide DecisionOf;
  }

  /** When the first delivery exhausts both bounds, every message sent back was refused and waits alike. */
  lemma FirstDeliveryEnds(p: Pass, k: nat)
    requires k < |p.msgs| && ValidSettings(p.cfg) && Counted(p.msgs) && p.cfg.maxDeliver == 1 && p.cfg.maxAttempts == 1
    ensures OpAt(p, k).NakOp? ==> OpAt(p, k).delay == p.cfg.delays[0]
  {
    hide Returns, Floor;
  }

  lemma FirstDeliveryInOrder(c: Ctx, processed: set<string>, budget: nat, p: Pass, i: nat, j: nat)
    requires Behind(c, processed, budget, p, i, j) && p.cfg.maxDeliver == 1 && p.cfg.maxAttempts == 1
    ensures ReturnsFirst(p, i, j)
  {
    hide Answers, OpAt;
    FirstDeliveryEnds(p, j);
    forall early, late | FrameSettlement.Longest(Asked(p, i), early) && FrameSettlement.Longest(Asked(p, j), late)
      ensures early <= OpAt(p, j).delay <= late
    {
      assert Asked(p, j)[j] == FrameSettlement.Outcome(true, OpAt(p, j).delay);
      if early > 0 {
        var k :| k in Asked(p, i) && Asked(p, i)[k] == FrameSettlement.Outcome(true, early);
        FirstDeliveryEnds(p, k);
      }
    }
  }

  /** A handler that gives its verdicts without breaking the order gets exactly these answers. */
  lemma HandlerDecides(c: Ctx, processed: set<string>, budget: nat, answers: seq<Result>)
    requires c.ordered && c.perMessage && !c.dedup && |answers| == |c.msgs| && c.msgs != []
    requires c.oracle.around(0) == Surroundings({}, None, None, None)
    requires c.oracle.apply(0, All(|c.msgs|)) == Answered(answers)
    requires OrderViolations(c, All(|c.msgs|), answers) == []
    ensures Handle(c, processed, budget).results == answers
  {
    hide OrderViolations, Verdicts, AckedOf, Released, Ordered, GroupsOf, Flat, Sort, ValidGroups;
    var subset := All(|c.msgs|);
    var s := Initial(c, processed, budget);
    WholeBatch(c);
    SubsetOfValid(c, GroupsOf(c, |c.msgs|));
    FreshWithoutDedup(c, subset, Seen(c, s));
    AscendsNoRepeat(subset);
    assert Ending(c, subset, Seen(c, s), 0) == Committed(Verdicts(subset, answers));
    var (next, outcome) := Attempt(c, subset, s);
    var e := Record(next, subset, Verdicts(subset, answers));
    assert BisectGroups(c, GroupsOf(c, |c.msgs|), s) == e;
    AllMember(|c.msgs|);
    forall i | 0 <= i < |c.msgs| ensures e.results[i] == answers[i] {
      VerdictsAt(subset, answers, i);
      assert i in subset;
    }
  }

  /** The first message asks for more than the first delay, the second one is given up. */
  function EarlyAnswers(cfg: Settings): (answers: seq<Result>)
    requires ValidSettings(cfg)
    ensures |answers| == 2
  {
    var held := if cfg.maxAttempts == 1 then ERR_ORDER_BLOCKED else ERR_MISSING_RESULT;
    [NakDelay(cfg.delays[0] + 1, held), Result(VerdictTerm, 0, Some(ERR_MISSING_RESULT), 0)]
  }

  function EarlyBatch(answers: seq<Result>): Ctx {
    Ctx(false, true, true, 0, _ => false, [Msg("a", "o"), Msg("b", "o")],
        Oracle(_ => Surroundings({}, None, None, None), (t, selection) => Answered(answers)))
  }

  function EarlyPass(cfg: Settings, results: seq<Result>): Pass {
    Pass(cfg, [Delivery(None, Some(1)), Delivery(None, Some(1))], results, _ => false)
  }

  lemma EarlyIsAnswered(cfg: Settings)
    requires ValidSettings(cfg)
    ensures var answers := EarlyAnswers(cfg);
      Answers(EarlyBatch(answers), {}, 0) == [answers[0], answers[1].(after := 1)]
  {
    hide Handle;
    var answers := EarlyAnswers(cfg);
    var c := EarlyBatch(answers);
    NoAcks(c, All(2), answers);
    HandlerDecides(c, {}, 0, answers);
    assert c.OrderKey(0) == c.OrderKey(1) == "o";
    assert LastFailed(c, answers, "o", 0) == None;
    assert LastFailed(c, answers, "o", 1) == Some(0);
    assert Linked(c, answers, 0) == answers[0] && Linked(c, answers, 1) == answers[1].(after := 1);
  }

  lemma NoAcks(c: Ctx, idxs: seq<nat>, applied: seq<Result>)
    requires InRange(c, idxs) && |applied| == |idxs| && forall p :: 0 <= p < |applied| ==> !Acked(applied[p])
    ensures OrderViolations(c, idxs, applied) == []
  {
    NoAcksUpTo(c, idxs, applied, |idxs|);
  }

  lemma {:induction false} NoAcksUpTo(c: Ctx, idxs: seq<nat>, applied: seq<Result>, n: nat)
    requires InRange(c, idxs) && |applied| == |idxs| && n <= |idxs|
    requires forall p :: 0 <= p < |applied| ==> !Acked(applied[p])
    ensures ViolationsUpTo(c, idxs, applied, n) == []
  {
    hide FailsBefore;
    if n > 0 {
      NoAcksUpTo(c, idxs, applied, n - 1);
    }
  }

  lemma EarlyFirst(cfg: Settings)
    requires ValidSettings(cfg) && cfg.onPoison && !NoRefusalBetween(cfg)
    ensures OpOf(cfg, false, Decide(cfg, Delivery(None, Some(1)), EarlyAnswers(cfg)[0], 0)) == NakOp(cfg.delays[0] + 1)
    ensures !Acked(EarlyAnswers(cfg)[0]) && EarlyAnswers(cfg)[0].after == 0
  {
  }

  lemma EarlySecond(cfg: Settings, floor: int)
    requires ValidSettings(cfg) && cfg.onPoison
    ensures var decision := Decide(cfg, Delivery(None, Some(1)), EarlyAnswers(cfg)[1].(after := 1), floor);
      decision.HandOff? && OpOf(cfg, false, decision) == NakOp(cfg.delays[0])
  {
  }

  lemma AskedAlone(p: Pass, i: nat, delay: int)
    requires i < |p.msgs| && ValidSettings(p.cfg) && OpAt(p, i) == NakOp(delay) && delay >= 0
    requires forall k: nat :: k < |p.msgs| && Together(p.msgs, i, k) ==> k == i
    ensures FrameSettlement.Longest(Asked(p, i), delay)
  {
    hide OpAt;
    var asked := Asked(p, i);
    assert i in asked && asked[i] == FrameSettlement.Outcome(true, delay);
  }

  lemma EarlyOps(cfg: Settings, p: Pass)
    requires ValidSettings(cfg) && cfg.onPoison && !NoRefusalBetween(cfg)
    requires p == EarlyPass(cfg, p.results) && p.results == [EarlyAnswers(cfg)[0], EarlyAnswers(cfg)[1].(after := 1)]
    ensures !Acked(p.results[0]) && Settling.Refused(p, 1)
    ensures OpAt(p, 0) == NakOp(cfg.delays[0] + 1) && OpAt(p, 1) == NakOp(cfg.delays[0])
  {
    hide Decide, OpOf, Returns, EarlyAnswers, NoRefusalBetween;
    EarlyFirst(cfg);
    EarlySecond(cfg, FloorOf(p, 1));
    assert ResultAt(p, 0) == p.results[0] && ResultAt(p, 1) == p.results[1];
    assert FloorOf(p, 0) == 0;
  }

  /** The refused second message comes back before the first one. */
  lemma RefusedOvertakes(cfg: Settings)
    requires ValidSettings(cfg) && cfg.onPoison && !NoRefusalBetween(cfg)
    ensures var answers := EarlyAnswers(cfg);
      var c := EarlyBatch(answers);
      var p := EarlyPass(cfg, Answers(c, {}, 0));
      Behind(c, {}, 0, p, 0, 1) && Settling.Refused(p, 1) && !ReturnsFirst(p, 0, 1)
  {
    hide Answers, OpAt, Settling.Refused, EarlyAnswers, NoRefusalBetween, Asked;
    var answers := EarlyAnswers(cfg);
    var c := EarlyBatch(answers);
    EarlyIsAnswered(cfg);
    var p := EarlyPass(cfg, Answers(c, {}, 0));
    EarlyOps(cfg, p);
    assert c.OrderKey(0) == c.OrderKey(1);
    AskedAlone(p, 0, cfg.delays[0] + 1);
    AskedAlone(p, 1, cfg.delays[0]);
  }

  /** Return-time order, exactly: whatever the handler and the poison handler answer, messages of one order
      key come back in order if and only if no refused hand-off can come between. */
  lemma ReturnsInOrderIff(cfg: Settings)
    requires ValidSettings(cfg)
    ensures ReturnsInOrder(cfg) <==> NoRefusalBetween(cfg)
  {
    hide ReturnsFirst, Answers, OpAt, Contiguous, Counted;
    if NoRefusalBetween(cfg) {
      forall c: Ctx, processed: set<string>, budget: nat, p: Pass, i: nat, j: nat
        | p.cfg == cfg && Behind(c, processed, budget, p, i, j)
        ensures ReturnsFirst(p, i, j)
      {
        if cfg.onPoison {
          FirstDeliveryInOrder(c, processed, budget, p, i, j);
        } else {
          NeverRefusedInOrder(c, processed, budget, p, i, j);
        }
      }
    } else {
      RefusedOvertakes(cfg);
    }
  }

  /** No accepted configuration with a poison handler is on the safe side. */
  lemma AcceptedMayOvertake(cfg: Settings)
    requires ValidSettings(cfg) && Accepted(cfg)
    ensures ReturnsInOrder(cfg) <==> !cfg.onPoison
  {
    ReturnsInOrderIff(cfg);
  }
}
