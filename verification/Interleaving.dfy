/** Handle calls of any number of consumers whose transactions interleave on one claims table. */
module Interleaving {
  import opened BatchTypes
  import opened Attempts
  import opened Groups
  import opened AttemptFacts
  import opened Bisection

  /** The part of the batch state that transactions read and write. */
  datatype Core = Core(processed: set<string>, log: seq<nat>, trace: seq<Entry>)

  function CoreOf(s: State): Core {
    Core(s.processed, s.log, s.trace)
  }

  ghost function Next(c: Ctx, subset: seq<nat>, s: Core): (e: Core)
    requires InRange(c, subset)
    ensures |e.trace| == |s.trace| + 1 && s.trace <= e.trace && e.trace[|s.trace|].subset == subset
  {
    CoreOf(Attempt(c, subset, State(s.processed, s.log, 0, [], [], s.trace)).0)
  }

  /** e is what the transactions in its trace lead to from s. */
  ghost predicate Steps(c: Ctx, s: Core, e: Core)
    decreases |e.trace| - |s.trace|
  {
    if |s.trace| >= |e.trace| then s == e
    else
      var subset := e.trace[|s.trace|].subset;
      InRange(c, subset) && Ascending(subset) && Steps(c, Next(c, subset, s), e)
  }

  lemma AttemptIsNext(c: Ctx, subset: seq<nat>, s: State)
    requires InRange(c, subset) && Ascending(subset)
    ensures Steps(c, CoreOf(s), CoreOf(Attempt(c, subset, s).0))
  {
    hide Ending, Fresh, AckedOf, Released;
    assert CoreOf(Attempt(c, subset, s).0) == Next(c, subset, CoreOf(s));
  }

  lemma {:induction false} StepsGrow(c: Ctx, s: Core, e: Core)
    requires Steps(c, s, e)
    ensures s.trace <= e.trace
    decreases |e.trace| - |s.trace|
  {
    if |s.trace| < |e.trace| {
      hide Next;
      StepsGrow(c, Next(c, e.trace[|s.trace|].subset, s), e);
    }
  }

  lemma {:induction false} StepsThen(c: Ctx, s: Core, m: Core, e: Core)
    requires Steps(c, s, m) && Steps(c, m, e)
    ensures Steps(c, s, e)
    decreases |m.trace| - |s.trace|
  {
    if |s.trace| < |m.trace| {
      hide Next;
      StepsGrow(c, m, e);
      StepsThen(c, Next(c, m.trace[|s.trace|].subset, s), m, e);
    }
  }

  lemma {:induction false} BisectSteps(c: Ctx, subset: seq<nat>, s: State)
    requires subset != [] && InRange(c, subset) && Ascending(subset)
    ensures Steps(c, CoreOf(s), CoreOf(Bisect(c, subset, s)))
    decreases |subset|, s.budget
  {
    hide Attempt, Steps;
    var (next, outcome) := Attempt(c, subset, s);
    var e := Bisect(c, subset, s);
    AttemptKeeps(c, subset, s);
    AttemptIsNext(c, subset, s);
    if outcome.RolledBack? {
      var err := FaultOf(outcome.failure);
      if c.transient(err) {
        if next.budget > 0 {
          BisectSteps(c, subset, Spend(next));
          StepsThen(c, CoreOf(s), CoreOf(next), CoreOf(e));
        }
      } else if |subset| > 1 {
        var middle := |subset| / 2;
        var half := Bisect(c, subset[..middle], next);
        BisectSteps(c, subset[..middle], next);
        BisectSteps(c, subset[middle..], half);
        StepsThen(c, CoreOf(s), CoreOf(next), CoreOf(half));
        StepsThen(c, CoreOf(s), CoreOf(half), CoreOf(e));
      }
    }
  }

  lemma {:induction false} OrderedSteps(c: Ctx, group: seq<nat>, known: Option<Error>, failed: bool, s: State)
    requires InRange(c, group) && Ascending(group) && (known.Some? ==> group != [])
    ensures Steps(c, CoreOf(s), CoreOf(Ordered(c, group, known, failed, s).0))
    decreases |group|, s.budget, if known.None? then 1 else 0
  {
    hide Attempt, Steps;
    var e := Ordered(c, group, known, failed, s).0;
    if known.Some? {
      if |group| == 1 {
        NoSteps(c, CoreOf(s));
      } else {
        OrderedHalvesSteps(c, group, known.value, failed, s);
      }
    } else if group == [] {
      NoSteps(c, CoreOf(s));
    } else {
      var (next, outcome) := Attempt(c, group, s);
      AttemptKeeps(c, group, s);
      AttemptIsNext(c, group, s);
      match outcome
      case Committed(_) =>
      case RolledBack(Violation(blocked)) =>
        ViolationBlocks(c, group, s);
        KeepAscends(group, blocked);
        KeepInRange(c, group, blocked);
        OrderedSteps(c, Keep(group, blocked), None, true, Block(c, next, blocked));
        StepsThen(c, CoreOf(s), CoreOf(next), CoreOf(e));
      case RolledBack(Fault(err)) =>
        if !c.transient(err) {
          OrderedSteps(c, group, Some(err), failed, next);
          StepsThen(c, CoreOf(s), CoreOf(next), CoreOf(e));
        } else if next.budget > 0 {
          OrderedSteps(c, group, None, failed, Spend(next));
          StepsThen(c, CoreOf(s), CoreOf(next), CoreOf(e));
        }
    }
  }

  lemma {:induction false} OrderedHalvesSteps(c: Ctx, group: seq<nat>, err: Error, failed: bool, s: State)
    requires InRange(c, group) && Ascending(group) && |group| > 1
    ensures Steps(c, CoreOf(s), CoreOf(Ordered(c, group, Some(err), failed, s).0))
    decreases |group|, s.budget, 0, 0
  {
    hide Attempt, Steps;
    var middle := |group| / 2;
    var (half, prefixFailed) := Ordered(c, group[..middle], None, false, s);
    OrderedSteps(c, group[..middle], None, false, s);
    if !prefixFailed {
      OrderedSteps(c, group[middle..], None, false, half);
      StepsThen(c, CoreOf(s), CoreOf(half), CoreOf(Ordered(c, group, Some(err), failed, s).0));
    }
  }

  lemma NoSteps(c: Ctx, s: Core)
    ensures Steps(c, s, s)
  {
  }

  lemma {:induction false} BisectGroupsSteps(c: Ctx, groups: seq<seq<nat>>, s: State)
    requires ValidGroups(c, groups)
    ensures Steps(c, CoreOf(s), CoreOf(BisectGroups(c, groups, s)))
    decreases |Flat(groups)|, s.budget
  {
    hide Attempt, Steps, Ordered;
    SubsetOfValid(c, groups);
    var subset := Sort(Flat(groups));
    var e := BisectGroups(c, groups, s);
    if subset == [] {
      NoSteps(c, CoreOf(s));
    } else {
      var (next, outcome) := Attempt(c, subset, s);
      AttemptKeeps(c, subset, s);
      AttemptIsNext(c, subset, s);
      match outcome
      case Committed(_) =>
      case RolledBack(Violation(blocked)) =>
        ViolationBlocks(c, subset, s);
        BlockedShrinks(c, groups, blocked);
        BisectGroupsSteps(c, WithoutIndexes(groups, blocked), Block(c, next, blocked));
        StepsThen(c, CoreOf(s), CoreOf(next), CoreOf(e));
      case RolledBack(Fault(err)) =>
        if c.transient(err) {
          if next.budget > 0 {
            BisectGroupsSteps(c, groups, Spend(next));
            StepsThen(c, CoreOf(s), CoreOf(next), CoreOf(e));
          }
        } else if |groups| == 1 {
          OrderedSteps(c, groups[0], Some(err), false, next);
          StepsThen(c, CoreOf(s), CoreOf(next), CoreOf(e));
        } else {
          GroupHalvesSteps(c, groups, next);
          StepsThen(c, CoreOf(s), CoreOf(next), CoreOf(e));
        }
    }
  }

  lemma {:induction false} GroupHalvesSteps(c: Ctx, groups: seq<seq<nat>>, s: State)
    requires ValidGroups(c, groups) && |groups| > 1
    ensures var middle := |groups| / 2;
      && ValidGroups(c, groups[..middle]) && ValidGroups(c, groups[middle..])
      && Steps(c, CoreOf(s), CoreOf(BisectGroups(c, groups[middle..], BisectGroups(c, groups[..middle], s))))
    decreases |Flat(groups)|, s.budget, 0
  {
    hide Attempt, Steps, Ordered;
    var middle := |groups| / 2;
    HalvesShrink(c, groups, middle);
    var half := BisectGroups(c, groups[..middle], s);
    BisectGroupsSteps(c, groups[..middle], s);
    BisectGroupsSteps(c, groups[middle..], half);
    StepsThen(c, CoreOf(s), CoreOf(half), CoreOf(BisectGroups(c, groups[middle..], half)));
  }

  /** A handle call touches the table only in the transactions of its trace. */
  lemma HandleSteps(c: Ctx, processed: set<string>, budget: nat)
    ensures Steps(c, Core(processed, [], []), CoreOf(Handle(c, processed, budget)))
  {
    hide Bisect, BisectGroups, Steps, ValidGroups;
    var s := Initial(c, processed, budget);
    if c.msgs == [] {
      NoSteps(c, CoreOf(s));
    } else if c.ordered {
      GroupsOfValid(c, |c.msgs|);
      BisectGroupsSteps(c, GroupsOf(c, |c.msgs|), s);
    } else {
      BisectSteps(c, All(|c.msgs|), s);
    }
  }

  /** The t-th transaction of a call. */
  datatype Tx = Tx(call: nat, c: Ctx, subset: seq<nat>, t: nat)

  /** An effect that a transaction committed: the call and the deduplication key of the message. */
  datatype Effect = Effect(call: nat, key: string)

  /** What all consumers share: the claims table, and the committed effects in commit order. */
  datatype World = World(processed: set<string>, effects: seq<Effect>)

  ghost predicate Valid(x: Tx) {
    x.c.dedup && InRange(x.c, x.subset) && Ascending(x.subset)
  }

  function EffectsOf(call: nat, c: Ctx, log: seq<nat>): (effects: seq<Effect>)
    requires InRange(c, log)
    ensures |effects| == |log| && forall p :: 0 <= p < |log| ==> effects[p] == Effect(call, c.Key(log[p]))
  {
    seq(|log|, p requires 0 <= p < |log| => Effect(call, c.Key(log[p])))
  }

  lemma AckedInRange(c: Ctx, indexes: seq<nat>, verdicts: map<nat, Result>)
    requires InRange(c, indexes)
    ensures InRange(c, AckedOf(indexes, verdicts))
  {
    var acked := AckedOf(indexes, verdicts);
    assert forall p :: 0 <= p < |acked| ==> acked[p] in acked;
  }

  /** One transaction on the shared table. */
  ghost function Commit(w: World, x: Tx): World
    requires Valid(x)
  {
    match Ending(x.c, x.subset, w.processed, x.t)
    case RolledBack(_) => w
    case Committed(verdicts) =>
      var indexes := Fresh(x.c, x.subset, w.processed);
      AckedInRange(x.c, indexes, verdicts);
      World(w.processed + Keys(x.c, x.subset) - Released(x.c, indexes, verdicts),
            w.effects + EffectsOf(x.call, x.c, AckedOf(indexes, verdicts)))
  }

  /** Any transactions of any calls, in the order in which they end. */
  ghost function Shared(w: World, txs: seq<Tx>): World
    requires forall x :: x in txs ==> Valid(x)
  {
    if txs == [] then w else Commit(Shared(w, txs[..|txs| - 1]), txs[|txs| - 1])
  }

  ghost predicate Once(w: World) {
    && (forall p, q :: 0 <= p < q < |w.effects| ==> w.effects[p].key != w.effects[q].key)
    && (forall p :: 0 <= p < |w.effects| ==> w.effects[p].key in w.processed)
  }

  /** The claims of a transaction: what it commits was not claimed, is claimed now, and is there once. */
  lemma CommitAdds(w: World, x: Tx)
    requires Valid(x)
    ensures var t := Commit(w, x);
      && w.processed <= t.processed && w.effects <= t.effects
      && (forall p :: |w.effects| <= p < |t.effects| ==>
            t.effects[p].call == x.call && t.effects[p].key !in w.processed && t.effects[p].key in t.processed)
      && (forall p, q :: |w.effects| <= p < q < |t.effects| ==> t.effects[p].key != t.effects[q].key)
  {
    hide Ending, Fresh, AckedOf;
    var outcome := Ending(x.c, x.subset, w.processed, x.t);
    if outcome.Committed? {
      var indexes := Fresh(x.c, x.subset, w.processed);
      var acked := AckedOf(indexes, outcome.verdicts);
      FreshKeys(x.c, x.subset, w.processed);
      FreshAscends(x.c, x.subset, w.processed);
      AckedOfAscends(indexes, outcome.verdicts);
      forall p | 0 <= p < |acked| ensures acked[p] in indexes && x.c.Key(acked[p]) !in Released(x.c, indexes, outcome.verdicts) {
        assert acked[p] in acked;
        AckedOfMember(indexes, outcome.verdicts, acked[p]);
      }
    }
  }

  /** Fresh messages are of the subset, are not claimed, and differ in their keys. */
  lemma FreshKeys(c: Ctx, subset: seq<nat>, processed: set<string>)
    requires InRange(c, subset) && Ascending(subset) && c.dedup
    ensures var indexes := Fresh(c, subset, processed);
      && (forall i :: i in indexes ==> i in subset && i < |c.msgs| && c.Key(i) !in processed && c.Key(i) in Keys(c, subset))
      && forall i, j :: i in indexes && j in indexes && c.Key(i) == c.Key(j) ==> i == j
  {
    var indexes := Fresh(c, subset, processed);
    forall i | i in indexes ensures i in subset && i < |c.msgs| && c.Key(i) !in processed && c.Key(i) in Keys(c, subset) {
      FreshIsUnclaimed(c, subset, processed, i);
    }
    forall i, j | i in indexes && j in indexes && c.Key(i) == c.Key(j) ensures i == j {
      FreshIsFirst(c, subset, processed, i, j);
      FreshIsFirst(c, subset, processed, j, i);
    }
  }

  /** Over every interleaving of the transactions of any calls, with redeliveries and in-batch repeats, each
      deduplication key has its effects committed at most once, and never when it was already claimed. */
  lemma {:induction false} EffectsAtMostOnce(w: World, txs: seq<Tx>)
    requires Once(w) && forall x :: x in txs ==> Valid(x)
    ensures var t := Shared(w, txs);
      && Once(t) && w.processed <= t.processed && w.effects <= t.effects
      && forall p :: |w.effects| <= p < |t.effects| ==> t.effects[p].key !in w.processed
  {
    if txs != [] {
      hide Commit;
      var init := txs[..|txs| - 1];
      EffectsAtMostOnce(w, init);
      CommitAdds(Shared(w, init), txs[|txs| - 1]);
    }
  }

  /** The keys of the effects of one call, in commit order. */
  function KeysBy(call: nat, effects: seq<Effect>): seq<string> {
    if effects == [] then []
    else KeysBy(call, effects[..|effects| - 1]) +
         (if effects[|effects| - 1].call == call then [effects[|effects| - 1].key] else [])
  }

  function KeysOf(c: Ctx, log: seq<nat>): (keys: seq<string>)
    requires InRange(c, log)
    ensures |keys| == |log| && forall p :: 0 <= p < |log| ==> keys[p] == c.Key(log[p])
  {
    seq(|log|, p requires 0 <= p < |log| => c.Key(log[p]))
  }

  lemma {:induction false} KeysByOthers(call: nat, a: seq<Effect>, b: seq<Effect>)
    requires a <= b && forall p :: |a| <= p < |b| ==> b[p].call != call
    ensures KeysBy(call, b) == KeysBy(call, a)
  {
    if |a| < |b| {
      KeysByOthers(call, a, b[..|b| - 1]);
    } else {
      assert a == b;
    }
  }

  lemma {:induction false} KeysByOwn(call: nat, a: seq<Effect>, c: Ctx, log: seq<nat>)
    requires InRange(c, log)
    ensures KeysBy(call, a + EffectsOf(call, c, log)) == KeysBy(call, a) + KeysOf(c, log)
  {
    var b := a + EffectsOf(call, c, log);
    if log == [] {
      assert b == a;
    } else {
      var init := log[..|log| - 1];
      KeysByOwn(call, a, c, init);
      assert b[..|b| - 1] == a + EffectsOf(call, c, init);
      assert KeysOf(c, log) == KeysOf(c, init) + [c.Key(log[|log| - 1])];
    }
  }

  ghost predicate ValidTrace(c: Ctx, trace: seq<Entry>) {
    c.dedup && forall k :: 0 <= k < |trace| ==> InRange(c, trace[k].subset) && Ascending(trace[k].subset)
  }

  /** What the other calls do before each transaction of this one. */
  ghost predicate Others(call: nat, others: nat -> seq<Tx>) {
    forall k: nat, x: Tx :: x in others(k) ==> Valid(x) && x.call != call
  }

  /** The first n transactions of a call, each behind the transactions of the others that ended before it. */
  ghost function Schedule(call: nat, c: Ctx, trace: seq<Entry>, others: nat -> seq<Tx>, n: nat): (txs: seq<Tx>)
    requires n <= |trace| && ValidTrace(c, trace) && Others(call, others)
    ensures forall x :: x in txs ==> Valid(x)
  {
    if n == 0 then []
    else Schedule(call, c, trace, others, n - 1) + others(n - 1) + [Tx(call, c, trace[n - 1].subset, n - 1)]
  }

  /** The world that transaction k of the call finds. */
  ghost function Found(w: World, call: nat, c: Ctx, trace: seq<Entry>, others: nat -> seq<Tx>, k: nat): World
    requires k < |trace| && ValidTrace(c, trace) && Others(call, others)
  {
    Shared(Shared(w, Schedule(call, c, trace, others, k)), others(k))
  }

  /** The arrivals of the call are the keys the others have claimed since its last transaction. */
  ghost predicate Heard(w: World, call: nat, c: Ctx, trace: seq<Entry>, others: nat -> seq<Tx>) {
    && ValidTrace(c, trace) && Others(call, others)
    && forall k: nat :: k < |trace| ==>
         Found(w, call, c, trace, others, k).processed
         == Shared(w, Schedule(call, c, trace, others, k)).processed + c.oracle.around(k).arrivals
  }

  lemma {:induction false} SharedThen(w: World, a: seq<Tx>, b: seq<Tx>)
    requires forall x :: x in a + b ==> Valid(x)
    ensures (forall x :: x in a ==> Valid(x)) && (forall x :: x in b ==> Valid(x))
    ensures Shared(w, a + b) == Shared(Shared(w, a), b)
  {
    hide Valid, Commit;
    assert forall x :: x in a ==> x in a + b;
    assert forall x :: x in b ==> x in a + b;
    if b == [] {
      assert a + b == a;
    } else {
      var init := b[..|b| - 1];
      assert (a + b)[..|a + b| - 1] == a + init;
      assert forall x :: x in a + init ==> x in a + b;
      SharedThen(w, a, init);
    }
  }

  lemma {:induction false} OthersAreForeign(call: nat, w: World, txs: seq<Tx>)
    requires forall x :: x in txs ==> Valid(x) && x.call != call
    ensures KeysBy(call, Shared(w, txs).effects) == KeysBy(call, w.effects)
  {
    if txs != [] {
      hide Commit;
      var init, last := txs[..|txs| - 1], txs[|txs| - 1];
      OthersAreForeign(call, w, init);
      CommitAdds(Shared(w, init), last);
      KeysByOthers(call, Shared(w, init).effects, Shared(w, txs).effects);
    }
  }

  /** One transaction of the call on the shared table is one attempt of the batch state. */
  lemma NextIsCommit(call: nat, c: Ctx, subset: seq<nat>, m: Core, w: World)
    requires c.dedup && InRange(c, subset) && Ascending(subset) && InRange(c, m.log)
    requires w.processed == m.processed + c.oracle.around(|m.trace|).arrivals
    requires KeysBy(call, w.effects) == KeysOf(c, m.log)
    ensures var x, next := Tx(call, c, subset, |m.trace|), Next(c, subset, m);
      && Ending(c, subset, w.processed, |m.trace|) == next.trace[|m.trace|].outcome
      && Commit(w, x).processed == next.processed
      && InRange(c, next.log) && KeysBy(call, Commit(w, x).effects) == KeysOf(c, next.log)
  {
    hide Ending, Fresh, AckedOf, Released, KeysBy;
    var outcome := Ending(c, subset, w.processed, |m.trace|);
    if outcome.Committed? {
      var acked := AckedOf(Fresh(c, subset, w.processed), outcome.verdicts);
      AckedInRange(c, Fresh(c, subset, w.processed), outcome.verdicts);
      KeysByOwn(call, w.effects, c, acked);
      assert KeysOf(c, m.log + acked) == KeysOf(c, m.log) + KeysOf(c, acked);
    }
  }

  /** The first n transactions of the call, in the shared world and in the batch state. */
  ghost predicate Follows(w: World, call: nat, c: Ctx, e: Core, others: nat -> seq<Tx>, m: Core)
    requires Heard(w, call, c, e.trace, others)
  {
    && m.trace <= e.trace && Steps(c, m, e) && InRange(c, m.log)
    && var shared := Shared(w, Schedule(call, c, e.trace, others, |m.trace|));
       shared.processed == m.processed && KeysBy(call, shared.effects) == KeysOf(c, m.log)
  }

  /** Transaction k of the call ends on the shared table as its trace says. */
  ghost predicate EndsAlike(w: World, call: nat, c: Ctx, trace: seq<Entry>, others: nat -> seq<Tx>, k: nat)
    requires Heard(w, call, c, trace, others) && k < |trace|
  {
    Ending(c, trace[k].subset, Found(w, call, c, trace, others, k).processed, k) == trace[k].outcome
  }

  lemma {:induction false} Follow(w: World, call: nat, c: Ctx, e: Core, others: nat -> seq<Tx>, n: nat) returns (m: Core)
    requires Heard(w, call, c, e.trace, others) && n <= |e.trace|
    requires Steps(c, Core(w.processed, [], []), e) && KeysBy(call, w.effects) == []
    ensures |m.trace| == n && Follows(w, call, c, e, others, m)
    ensures forall k :: 0 <= k < n ==> EndsAlike(w, call, c, e.trace, others, k)
  {
    hide Steps, Follows, EndsAlike, KeysBy, Heard;
    if n == 0 {
      m := Core(w.processed, [], []);
      FollowNone(w, call, c, e, others);
    } else {
      var before := Follow(w, call, c, e, others, n - 1);
      m := FollowOne(w, call, c, e, others, before);
    }
  }

  lemma HeardIsValid(w: World, call: nat, c: Ctx, trace: seq<Entry>, others: nat -> seq<Tx>)
    requires Heard(w, call, c, trace, others)
    ensures ValidTrace(c, trace) && Others(call, others)
  {
  }

  lemma FollowNone(w: World, call: nat, c: Ctx, e: Core, others: nat -> seq<Tx>)
    requires Heard(w, call, c, e.trace, others)
    requires Steps(c, Core(w.processed, [], []), e) && KeysBy(call, w.effects) == []
    ensures Follows(w, call, c, e, others, Core(w.processed, [], []))
  {
    assert KeysOf(c, []) == [];
  }

  lemma FollowOne(w: World, call: nat, c: Ctx, e: Core, others: nat -> seq<Tx>, before: Core) returns (m: Core)
    requires Heard(w, call, c, e.trace, others) && Follows(w, call, c, e, others, before) && |before.trace| < |e.trace|
    ensures |m.trace| == |before.trace| + 1 && Follows(w, call, c, e, others, m)
    ensures EndsAlike(w, call, c, e.trace, others, |before.trace|)
  {
    hide Ending, KeysBy, Next, Valid, Commit;
    var k, subset := |before.trace|, e.trace[|before.trace|].subset;
    var found := Found(w, call, c, e.trace, others, k);
    var past, x := Schedule(call, c, e.trace, others, k), Tx(call, c, subset, k);
    m := Next(c, subset, before);
    StepsGrow(c, m, e);
    OthersAreForeign(call, Shared(w, past), others(k));
    NextIsCommit(call, c, subset, before, found);
    SharedThen(w, past, others(k));
    assert Schedule(call, c, e.trace, others, k + 1) == past + others(k) + [x];
    assert (past + others(k) + [x])[..|past + others(k)|] == past + others(k);
  }

  /** A handle call among others. When its arrivals are what the others claim in between, then its transactions
      on the shared table end as the batch state says: with the same outcomes, the same table at the end and
      the same effects in the same order. */
  lemma CallIsItsTransactions(w: World, call: nat, c: Ctx, budget: nat, others: nat -> seq<Tx>)
    requires c.dedup && KeysBy(call, w.effects) == []
    requires Heard(w, call, c, Handle(c, w.processed, budget).trace, others)
    ensures var e := Handle(c, w.processed, budget);
      var t := Shared(w, Schedule(call, c, e.trace, others, |e.trace|));
      && t.processed == e.processed && InRange(c, e.log) && KeysBy(call, t.effects) == KeysOf(c, e.log)
      && (Once(w) ==> Once(t))
      && forall k :: 0 <= k < |e.trace| ==> EndsAlike(w, call, c, e.trace, others, k)
  {
    hide Handle, Heard, EndsAlike, Once, KeysBy;
    var e := CoreOf(Handle(c, w.processed, budget));
    HandleSteps(c, w.processed, budget);
    var m := Follow(w, call, c, e, others, |e.trace|);
    assert m == e;
    if Once(w) {
      HeardIsValid(w, call, c, e.trace, others);
      EffectsAtMostOnce(w, Schedule(call, c, e.trace, others, |e.trace|));
    }
  }
}
