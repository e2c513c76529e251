/** What the transactions of a batch cost and where they go: each transient error takes one retry while there is one,
    the retry is for the same messages, and commits follow the order of the messages. */
module Transactions {
  import opened BatchTypes
  import opened Attempts
  import opened Groups
  import opened AttemptFacts
  import opened Bisection
  import opened Progress
  import opened Soundness

  /** A transaction that was rolled back with a transient error. */
  ghost predicate Transient(c: Ctx, entry: Entry) {
    entry.outcome.RolledBack? && entry.outcome.failure.Fault? && c.transient(entry.outcome.failure.err)
  }

  ghost function Transients(c: Ctx, trace: seq<Entry>): nat {
    if trace == [] then 0
    else Transients(c, trace[..|trace| - 1]) + if Transient(c, trace[|trace| - 1]) then 1 else 0
  }

  /** What is left of a budget after so many transient errors. */
  function Remaining(budget: nat, transients: nat): nat {
    if transients <= budget then budget - transients else 0
  }

  ghost predicate Left(c: Ctx, budget: nat, s: State) {
    s.budget == Remaining(budget, Transients(c, s.trace))
  }

  /** The first message of the order key of i. */
  ghost predicate Opener(c: Ctx, h: nat, i: nat) {
    h <= i < |c.msgs| && c.OrderKey(h) == c.OrderKey(i) && forall j :: 0 <= j < h ==> c.OrderKey(j) != c.OrderKey(i)
  }

  /** Message i comes before message j: in the batch, or with an order key by the first message of its order key. */
  ghost predicate Before(c: Ctx, i: nat, j: nat) {
    if !c.ordered then i < j
    else
      i < |c.msgs| && j < |c.msgs| &&
      if c.OrderKey(i) == c.OrderKey(j) then i < j
      else forall h, g :: Opener(c, h, i) && Opener(c, g, j) ==> h < g
  }

  ghost predicate AllBefore(c: Ctx, a: seq<nat>, b: seq<nat>) {
    forall i, j :: i in a && j in b ==> Before(c, i, j)
  }

  ghost predicate Within(idxs: seq<nat>, trace: seq<Entry>, n: nat) {
    forall k :: n <= k < |trace| ==> forall i :: i in trace[k].subset ==> i in idxs
  }

  /** Of two committed transactions the earlier one is for earlier messages. */
  ghost predicate CommitsAscend(c: Ctx, trace: seq<Entry>, n: nat) {
    forall k, l :: n <= k < l < |trace| && trace[k].outcome.Committed? && trace[l].outcome.Committed? ==>
      AllBefore(c, trace[k].subset, trace[l].subset)
  }

  /** Transaction k is tried again for the same messages while there is a retry; without one its messages are
      answered with its error. */
  ghost predicate RetriedAt(c: Ctx, budget: nat, e: State, k: nat)
    requires k < |e.trace|
  {
    Transient(c, e.trace[k]) ==>
      if Transients(c, e.trace[..k]) < budget then k + 1 < |e.trace| && e.trace[k + 1].subset == e.trace[k].subset
      else forall i :: i in e.trace[k].subset && i < |e.results| ==>
             e.results[i] == TransientResult(c, e.trace[k].outcome.failure.err)
  }

  /** Transaction k gave message i its result; a transient error only when no retry was left. */
  ghost predicate Gives(c: Ctx, budget: nat, trace: seq<Entry>, k: nat, i: nat, r: Result)
    requires k < |trace|
  {
    i in trace[k].subset &&
    match trace[k].outcome
    case Committed(verdicts) => r == if i in verdicts then verdicts[i] else Ack()
    case RolledBack(Violation(blocked)) => i in blocked && r == Blocked(c)
    case RolledBack(Fault(err)) =>
      if c.transient(err) then Transients(c, trace[..k]) >= budget && r == TransientResult(c, err)
      else trace[k].subset == [i] && r == Nak(err)
  }

  ghost predicate Given(c: Ctx, budget: nat, e: State, i: nat)
    requires i < |e.results|
  {
    e.results[i] == Blocked(c) || exists k: nat :: k < |e.trace| && Gives(c, budget, e.trace, k, i, e.results[i])
  }

  /** The run from s to e for idxs. */
  ghost predicate Traced(c: Ctx, budget: nat, idxs: seq<nat>, s: State, e: State) {
    && s.trace <= e.trace && |e.results| == |c.msgs| && Left(c, budget, e)
    && Within(idxs, e.trace, |s.trace|) && CommitsAscend(c, e.trace, |s.trace|)
    && (forall k: nat :: |s.trace| <= k < |e.trace| ==> RetriedAt(c, budget, e, k))
    && (forall i :: i in idxs && i < |c.msgs| ==> Given(c, budget, e, i))
  }

  /** The first transaction of the run is for subset. */
  ghost predicate Opens(s: State, e: State, subset: seq<nat>) {
    |s.trace| < |e.trace| && e.trace[|s.trace|].subset == subset
  }

  lemma TransientsNext(c: Ctx, trace: seq<Entry>, entry: Entry)
    ensures Transients(c, trace + [entry]) == Transients(c, trace) + if Transient(c, entry) then 1 else 0
  {
    hide Transient;
    assert (trace + [entry])[..|trace|] == trace;
  }

  /** Results outside the messages of the second run stay, and so does what they say about the first run. */
  lemma StillRetried(c: Ctx, budget: nat, m: State, e: State, k: nat)
    requires k < |m.trace| && m.trace <= e.trace && |m.results| == |e.results| && RetriedAt(c, budget, m, k)
    requires forall i :: i in m.trace[k].subset && i < |m.results| ==> e.results[i] == m.results[i]
    ensures RetriedAt(c, budget, e, k)
  {
    hide Transients, Transient, TransientResult;
    assert e.trace[..k] == m.trace[..k];
  }

  lemma StillGiven(c: Ctx, budget: nat, m: State, e: State, i: nat)
    requires m.trace <= e.trace && i < |m.results| == |e.results| && e.results[i] == m.results[i] && Given(c, budget, m, i)
    ensures Given(c, budget, e, i)
  {
    hide Transients, TransientResult, Blocked;
    if e.results[i] != Blocked(c) {
      var k: nat :| k < |m.trace| && Gives(c, budget, m.trace, k, i, m.results[i]);
      assert e.trace[..k] == m.trace[..k];
      assert Gives(c, budget, e.trace, k, i, e.results[i]);
    }
  }

  /** Two runs, the first one for earlier messages. */
  lemma TracedThen(c: Ctx, budget: nat, a: seq<nat>, b: seq<nat>, s: State, m: State, e: State)
    requires Traced(c, budget, a, s, m) && Traced(c, budget, b, m, e) && AllBefore(c, a, b)
    requires forall i :: i in a ==> i !in b
    requires forall i: nat :: i < |c.msgs| && i !in b ==> e.results[i] == m.results[i]
    ensures Traced(c, budget, a + b, s, e)
  {
    hide Left, AllBefore, RetriedAt, Given, Transient;
    forall k: nat | |s.trace| <= k < |m.trace| ensures RetriedAt(c, budget, e, k) {
      StillRetried(c, budget, m, e, k);
    }
    forall i | i in a && i < |c.msgs| ensures Given(c, budget, e, i) {
      StillGiven(c, budget, m, e, i);
    }
    forall k, l | |s.trace| <= k < l < |e.trace| && e.trace[k].outcome.Committed? && e.trace[l].outcome.Committed?
      ensures AllBefore(c, e.trace[k].subset, e.trace[l].subset)
    {
      if k < |m.trace| <= l {
        FewerBefore(c, a, b, e.trace[k].subset, e.trace[l].subset);
      }
    }
  }

  lemma FewerBefore(c: Ctx, a: seq<nat>, b: seq<nat>, x: seq<nat>, y: seq<nat>)
    requires AllBefore(c, a, b) && (forall i :: i in x ==> i in a) && forall j :: j in y ==> j in b
    ensures AllBefore(c, x, y)
  {
    hide Before;
  }

  /** The same messages in another order. */
  lemma TracedSame(c: Ctx, budget: nat, a: seq<nat>, b: seq<nat>, s: State, e: State)
    requires Traced(c, budget, a, s, e) && forall i :: i in b <==> i in a
    ensures Traced(c, budget, b, s, e)
  {
    hide Left, CommitsAscend, RetriedAt, Given;
  }

  /** A rollback, and then a run over some of the messages, while the others are answered by it. */
  lemma RollbackThen(c: Ctx, budget: nat, idxs: seq<nat>, rest: seq<nat>, s: State, next: State, m: State, e: State)
    requires Left(c, budget, s) && s.trace <= next.trace && |next.trace| == |s.trace| + 1 && m.trace == next.trace
    requires next.trace[|s.trace|].outcome.RolledBack?
    requires (forall i :: i in next.trace[|s.trace|].subset ==> i in idxs) && forall i :: i in rest ==> i in idxs
    requires Traced(c, budget, rest, m, e) && RetriedAt(c, budget, e, |s.trace|)
    requires forall i :: i in idxs && i !in rest && i < |c.msgs| ==> Given(c, budget, e, i)
    ensures Traced(c, budget, idxs, s, e)
  {
    hide Left, AllBefore, RetriedAt, Given, Transient;
    assert e.trace[|s.trace|] == next.trace[|s.trace|];
  }

  /** A run of one transaction. */
  lemma OnlyOne(c: Ctx, budget: nat, subset: seq<nat>, s: State, e: State)
    requires |e.trace| == |s.trace| + 1 && s.trace <= e.trace && |e.results| == |c.msgs| && Left(c, budget, e)
    requires e.trace[|s.trace|].subset == subset && RetriedAt(c, budget, e, |s.trace|)
    requires forall i :: i in subset && i < |c.msgs| ==> Given(c, budget, e, i)
    ensures Traced(c, budget, subset, s, e) && Opens(s, e, subset)
  {
    hide Left, AllBefore, RetriedAt, Given;
  }

  lemma Nothing(c: Ctx, budget: nat, s: State)
    requires Left(c, budget, s) && |s.results| == |c.msgs|
    ensures Traced(c, budget, [], s, s)
  {
    hide Left;
  }

  /** The state after an attempt, before its result is written. */
  lemma AttemptLeaves(c: Ctx, budget: nat, subset: seq<nat>, s: State)
    requires InRange(c, subset) && Ascending(subset) && Left(c, budget, s)
    ensures var (next, outcome) := Attempt(c, subset, s);
      && next.trace == s.trace + [Entry(subset, outcome)] && next.results == s.results && next.budget == s.budget
      && next.trace[..|s.trace|] == s.trace
      && (if Transient(c, Entry(subset, outcome)) then
            && (next.budget > 0 <==> Transients(c, s.trace) < budget)
            && (next.budget > 0 ==> Left(c, budget, Spend(next)))
            && (next.budget == 0 ==> Left(c, budget, next))
          else Left(c, budget, next))
  {
    hide Attempt, Transient;
    AttemptKeeps(c, subset, s);
    var (next, outcome) := Attempt(c, subset, s);
    TransientsNext(c, s.trace, Entry(subset, outcome));
  }

  lemma WritesLeave(c: Ctx, budget: nat, s: State, idxs: seq<nat>, value: nat -> Result)
    requires Left(c, budget, s)
    ensures Left(c, budget, Write(s, idxs, value)) && Write(s, idxs, value).trace == s.trace
    ensures forall i: nat :: i < |s.results| ==> Write(s, idxs, value).results[i] == if i in idxs then value(i) else s.results[i]
  {
    hide Transients;
  }

  lemma CommitTraced(c: Ctx, budget: nat, subset: seq<nat>, s: State)
    requires InRange(c, subset) && Ascending(subset) && Left(c, budget, s) && |s.results| == |c.msgs|
    requires Attempt(c, subset, s).1.Committed?
    ensures var (next, outcome) := Attempt(c, subset, s);
      var e := Record(next, subset, outcome.verdicts);
      Traced(c, budget, subset, s, e) && Opens(s, e, subset)
  {
    hide Attempt, Left, Transients, Blocked;
    AttemptLeaves(c, budget, subset, s);
    var (next, outcome) := Attempt(c, subset, s);
    WritesLeave(c, budget, next, subset, i => if i in outcome.verdicts then outcome.verdicts[i] else Ack());
    var e := Record(next, subset, outcome.verdicts);
    forall i | i in subset && i < |c.msgs| ensures Given(c, budget, e, i) {
      assert Gives(c, budget, e.trace, |s.trace|, i, e.results[i]);
    }
    OnlyOne(c, budget, subset, s, e);
  }

  /** A transient error without a retry left. */
  lemma GiveUpTraced(c: Ctx, budget: nat, subset: seq<nat>, s: State, err: Error)
    requires InRange(c, subset) && Ascending(subset) && Left(c, budget, s) && |s.results| == |c.msgs|
    requires var (next, outcome) := Attempt(c, subset, s);
      outcome == RolledBack(Fault(err)) && c.transient(err) && next.budget == 0
    ensures var e := GiveUp(c, Attempt(c, subset, s).0, subset, err);
      Traced(c, budget, subset, s, e) && Opens(s, e, subset)
  {
    hide Attempt, Left, Transients, Blocked, TransientResult;
    AttemptLeaves(c, budget, subset, s);
    var (next, outcome) := Attempt(c, subset, s);
    WritesLeave(c, budget, next, subset, i => TransientResult(c, err));
    var e := GiveUp(c, next, subset, err);
    assert e.trace[..|s.trace|] == s.trace;
    forall i | i in subset && i < |c.msgs| ensures Given(c, budget, e, i) {
      assert Gives(c, budget, e.trace, |s.trace|, i, e.results[i]);
    }
    OnlyOne(c, budget, subset, s, e);
  }

  /** An error that a message has alone. */
  lemma AloneTraced(c: Ctx, budget: nat, subset: seq<nat>, s: State, err: Error)
    requires InRange(c, subset) && Ascending(subset) && Left(c, budget, s) && |s.results| == |c.msgs| && |subset| == 1
    requires Attempt(c, subset, s).1 == RolledBack(Fault(err)) && !c.transient(err)
    ensures var e := Write(Attempt(c, subset, s).0, subset, i => Nak(err));
      Traced(c, budget, subset, s, e) && Opens(s, e, subset)
  {
    hide Attempt, Left, Transients, Blocked, Nak;
    AttemptLeaves(c, budget, subset, s);
    var (next, outcome) := Attempt(c, subset, s);
    WritesLeave(c, budget, next, subset, i => Nak(err));
    var e := Write(next, subset, i => Nak(err));
    forall i | i in subset && i < |c.msgs| ensures Given(c, budget, e, i) {
      assert subset == [i];
      assert Gives(c, budget, e.trace, |s.trace|, i, e.results[i]);
    }
    OnlyOne(c, budget, subset, s, e);
  }

  /** A transient error, and the same messages again with one retry less. */
  lemma RetryTraced(c: Ctx, budget: nat, subset: seq<nat>, idxs: seq<nat>, s: State, e: State)
    requires InRange(c, subset) && Ascending(subset) && Left(c, budget, s) && forall i :: i in subset <==> i in idxs
    requires var (next, outcome) := Attempt(c, subset, s);
      && Transient(c, Entry(subset, outcome)) && next.budget > 0
      && Traced(c, budget, idxs, Spend(next), e) && Opens(Spend(next), e, subset)
    ensures Traced(c, budget, idxs, s, e) && Opens(s, e, subset)
  {
    hide Attempt, Left, Transients, CommitsAscend, Given;
    AttemptLeaves(c, budget, subset, s);
    var (next, outcome) := Attempt(c, subset, s);
    assert e.trace[..|s.trace|] == s.trace && e.trace[|s.trace|] == Entry(subset, outcome);
    RollbackThen(c, budget, idxs, idxs, s, next, Spend(next), e);
  }

  /** A rollback that is not transient, and a run over all of its messages. */
  lemma FaultTraced(c: Ctx, budget: nat, subset: seq<nat>, idxs: seq<nat>, s: State, e: State)
    requires InRange(c, subset) && Ascending(subset) && Left(c, budget, s) && forall i :: i in subset <==> i in idxs
    requires var (next, outcome) := Attempt(c, subset, s);
      outcome.RolledBack? && !Transient(c, Entry(subset, outcome)) && Traced(c, budget, idxs, next, e)
    ensures Traced(c, budget, idxs, s, e) && Opens(s, e, subset)
  {
    hide Attempt, Left, Transients, CommitsAscend, Given;
    AttemptLeaves(c, budget, subset, s);
    var (next, outcome) := Attempt(c, subset, s);
    assert e.trace[|s.trace|] == Entry(subset, outcome);
    RollbackThen(c, budget, idxs, idxs, s, next, next, e);
  }

  /** A violation: what it blocks is answered, and a run over the rest. */
  lemma ViolationTraced(c: Ctx, budget: nat, subset: seq<nat>, rest: seq<nat>, idxs: seq<nat>, s: State, e: State)
    requires InRange(c, subset) && Ascending(subset) && Left(c, budget, s) && forall i :: i in subset <==> i in idxs
    requires var (next, outcome) := Attempt(c, subset, s);
      && outcome.RolledBack? && outcome.failure.Violation?
      && (forall i :: i in rest <==> i in subset && i !in outcome.failure.blocked)
      && |s.results| == |c.msgs|
      && Traced(c, budget, rest, Block(c, next, outcome.failure.blocked), e)
      && forall i: nat :: i < |c.msgs| && i !in rest ==> e.results[i] == Block(c, next, outcome.failure.blocked).results[i]
    ensures Traced(c, budget, idxs, s, e) && Opens(s, e, subset)
  {
    hide Attempt, Left, Transients, CommitsAscend, Blocked;
    AttemptLeaves(c, budget, subset, s);
    var (next, outcome) := Attempt(c, subset, s);
    var held := Block(c, next, outcome.failure.blocked);
    assert e.trace[|s.trace|] == Entry(subset, outcome);
    forall i | i in idxs && i !in rest && i < |c.msgs| ensures Given(c, budget, e, i) {
      assert i in outcome.failure.blocked;
    }
    RollbackThen(c, budget, idxs, rest, s, next, held, e);
  }

  /** One half and then the other. */
  lemma AscendsApart(c: Ctx, subset: seq<nat>, middle: nat)
    requires Ascending(subset) && middle <= |subset| && (c.ordered ==> InRange(c, subset) && OneKey(c, subset))
    ensures AllBefore(c, subset[..middle], subset[middle..])
    ensures forall i :: i in subset[..middle] ==> i !in subset[middle..]
  {
    var a, b := subset[..middle], subset[middle..];
    forall i, j | i in a && j in b ensures Before(c, i, j) && i != j {
      var p := IndexOf(a, i);
      var q := IndexOf(b, j);
      assert subset[p] == i && subset[middle + q] == j;
    }
  }

  lemma {:induction false} BisectTraced(c: Ctx, budget: nat, subset: seq<nat>, s: State)
    requires subset != [] && InRange(c, subset) && Ascending(subset) && !c.ordered
    requires |s.results| == |c.msgs| && Untouched(s, subset) && Left(c, budget, s)
    ensures Traced(c, budget, subset, s, Bisect(c, subset, s)) && Opens(s, Bisect(c, subset, s), subset)
    decreases |subset|, s.budget
  {
    hide Attempt, Traced, Left, Opens, Write, Transients;
    var (next, outcome) := Attempt(c, subset, s);
    AttemptKeeps(c, subset, s);
    AttemptLeaves(c, budget, subset, s);
    var e := Bisect(c, subset, s);
    match outcome
    case Committed(_) => CommitTraced(c, budget, subset, s);
    case RolledBack(failure) =>
      ViolationBlocks(c, subset, s);
      var err := FaultOf(failure);
      if c.transient(err) {
        if next.budget > 0 {
          BisectTraced(c, budget, subset, Spend(next));
          RetryTraced(c, budget, subset, subset, s, e);
        } else {
          GiveUpTraced(c, budget, subset, s, err);
        }
      } else if |subset| == 1 {
        AloneTraced(c, budget, subset, s, err);
      } else {
        BisectHalvesTraced(c, budget, subset, next);
        FaultTraced(c, budget, subset, subset, s, e);
      }
  }

  lemma {:induction false} BisectHalvesTraced(c: Ctx, budget: nat, subset: seq<nat>, s: State)
    requires |subset| > 1 && InRange(c, subset) && Ascending(subset) && !c.ordered
    requires |s.results| == |c.msgs| && Untouched(s, subset) && Left(c, budget, s)
    ensures var middle := |subset| / 2;
      Traced(c, budget, subset, s, Bisect(c, subset[middle..], Bisect(c, subset[..middle], s)))
    decreases |subset|, 0, 0
  {
    hide Attempt, Left, Opens, AllBefore, Bisect, Logged, Claimed, Justified;
    var middle := |subset| / 2;
    var a, b := subset[..middle], subset[middle..];
    AscendsApart(c, subset, middle);
    assert subset == a + b;
    BisectSound(c, a, s);
    BisectTraced(c, budget, a, s);
    var half := Bisect(c, a, s);
    WritesGrow(c, a, s, half);
    assert forall i :: i in b ==> i in subset;
    BisectSound(c, b, half);
    BisectTraced(c, budget, b, half);
    TracedThen(c, budget, a, b, s, half, Bisect(c, b, half));
  }

  lemma {:induction false} OrderedTraced(c: Ctx, budget: nat, group: seq<nat>, failed: bool, s: State)
    requires InRange(c, group) && Ascending(group) && OneKey(c, group) && c.ordered
    requires |s.results| == |c.msgs| && Untouched(s, group) && Left(c, budget, s)
    ensures var e := Ordered(c, group, None, failed, s).0;
      Traced(c, budget, group, s, e) && (group != [] ==> Opens(s, e, group))
    decreases |group|, s.budget, 1, 1
  {
    hide Attempt, Traced, Left, Opens, Write, Transients, OneKey;
    var e := Ordered(c, group, None, failed, s).0;
    if group == [] {
      Nothing(c, budget, s);
    } else {
      var (next, outcome) := Attempt(c, group, s);
      AttemptKeeps(c, group, s);
      AttemptLeaves(c, budget, group, s);
      match outcome
      case Committed(_) => CommitTraced(c, budget, group, s);
      case RolledBack(Violation(blocked)) => OrderedViolationTraced(c, budget, group, failed, s);
      case RolledBack(Fault(err)) =>
        if c.transient(err) {
          if next.budget > 0 {
            OrderedTraced(c, budget, group, failed, Spend(next));
            RetryTraced(c, budget, group, group, s, e);
          } else {
            GiveUpTraced(c, budget, group, s, err);
          }
        } else if |group| == 1 {
          AloneTraced(c, budget, group, s, err);
        } else {
          OrderedHalvesTraced(c, budget, group, err, failed, next);
          FaultTraced(c, budget, group, group, s, e);
        }
    }
  }

  /** After a violation the rest of the group is still to be answered. */
  lemma HeldLeaves(c: Ctx, budget: nat, group: seq<nat>, s: State)
    requires InRange(c, group) && Ascending(group) && OneKey(c, group) && c.ordered
    requires |s.results| == |c.msgs| && Untouched(s, group) && Left(c, budget, s)
    requires var outcome := Attempt(c, group, s).1; outcome.RolledBack? && outcome.failure.Violation?
    ensures var (next, outcome) := Attempt(c, group, s);
      var kept, held := Keep(group, outcome.failure.blocked), Block(c, next, outcome.failure.blocked);
      && InRange(c, kept) && Ascending(kept) && OneKey(c, kept) && |kept| < |group| && held.budget == s.budget
      && (forall i :: i in kept <==> i in group && i !in outcome.failure.blocked)
      && |held.results| == |c.msgs| && Untouched(held, kept) && Left(c, budget, held)
  {
    hide Attempt, Left, Transients, OneKey, Logged, Claimed, Justified;
    var (next, outcome) := Attempt(c, group, s);
    var blocked := outcome.failure.blocked;
    AttemptLeaves(c, budget, group, s);
    AttemptKeeps(c, group, s);
    ViolationBlocks(c, group, s);
    BlockSound(c, group, s);
    BlockedInRange(c, group, s);
    KeepFacts(c, group, blocked);
    WritesGrow(c, blocked, s, Block(c, next, blocked));
    WritesLeave(c, budget, next, blocked, i => Blocked(c));
  }

  lemma {:induction false} OrderedViolationTraced(c: Ctx, budget: nat, group: seq<nat>, failed: bool, s: State)
    requires InRange(c, group) && Ascending(group) && OneKey(c, group) && c.ordered && group != []
    requires |s.results| == |c.msgs| && Untouched(s, group) && Left(c, budget, s)
    requires var outcome := Attempt(c, group, s).1; outcome.RolledBack? && outcome.failure.Violation?
    ensures var e := Ordered(c, group, None, failed, s).0; Traced(c, budget, group, s, e) && Opens(s, e, group)
    decreases |group|, s.budget, 0, 1
  {
    hide Attempt, Traced, Left, Opens, Transients, OneKey, Logged, Claimed, Justified, Ascending, InRange, Untouched, Write, Keep;
    HeldLeaves(c, budget, group, s);
    var (next, outcome) := Attempt(c, group, s);
    var kept := Keep(group, outcome.failure.blocked);
    var held := Block(c, next, outcome.failure.blocked);
    var e := Ordered(c, kept, None, true, held).0;
    OrderedSound(c, kept, None, true, held);
    assert Kept(c, kept, held, e);
    OrderedTraced(c, budget, kept, true, held);
    ViolationTraced(c, budget, group, kept, group, s, e);
  }

  lemma {:induction false} OrderedHalvesTraced(c: Ctx, budget: nat, group: seq<nat>, err: Error, failed: bool, s: State)
    requires InRange(c, group) && Ascending(group) && OneKey(c, group) && c.ordered && |group| > 1
    requires |s.results| == |c.msgs| && Untouched(s, group) && Left(c, budget, s)
    ensures Traced(c, budget, group, s, Ordered(c, group, Some(err), failed, s).0)
    decreases |group|, s.budget, 0, 0
  {
    hide Attempt, Left, Opens, AllBefore, OneKey, Ascending, InRange, Logged, Claimed, Justified, Transients;
    var middle := |group| / 2;
    var a, b := group[..middle], group[middle..];
    AscendsApart(c, group, middle);
    HalfGroups(c, group, middle);
    var (half, prefixFailed) := Ordered(c, a, None, false, s);
    OrderedSound(c, a, None, false, s);
    OrderedTraced(c, budget, a, false, s);
    WritesGrow(c, a, s, half);
    if prefixFailed {
      BlockTraced(c, budget, b, half);
      TracedThen(c, budget, a, b, s, half, Block(c, half, b));
    } else {
      OrderedSound(c, b, None, false, half);
      OrderedTraced(c, budget, b, false, half);
      TracedThen(c, budget, a, b, s, half, Ordered(c, b, None, false, half).0);
    }
  }

  /** Messages that are held without a transaction. */
  lemma BlockTraced(c: Ctx, budget: nat, b: seq<nat>, s: State)
    requires Left(c, budget, s) && |s.results| == |c.msgs|
    ensures Traced(c, budget, b, s, Block(c, s, b))
    ensures forall i: nat :: i < |c.msgs| && i !in b ==> Block(c, s, b).results[i] == s.results[i]
  {
    hide Left, Transients, Blocked;
    WritesLeave(c, budget, s, b, i => Blocked(c));
  }

  /** The groups come in the order of their first messages. */
  ghost predicate InOrder(c: Ctx, groups: seq<seq<nat>>) {
    forall p, q :: 0 <= p < q < |groups| ==> AllBefore(c, groups[p], groups[q])
  }

  lemma FlatBefore(c: Ctx, a: seq<seq<nat>>, b: seq<seq<nat>>)
    requires InOrder(c, a + b)
    ensures AllBefore(c, Flat(a), Flat(b)) && InOrder(c, a) && InOrder(c, b)
  {
    hide Before;
    forall p, q | 0 <= p < q < |a| ensures AllBefore(c, a[p], a[q]) {
      assert (a + b)[p] == a[p] && (a + b)[q] == a[q];
    }
    forall p, q | 0 <= p < q < |b| ensures AllBefore(c, b[p], b[q]) {
      assert (a + b)[|a| + p] == b[p] && (a + b)[|a| + q] == b[q];
    }
    forall i, j | i in Flat(a) && j in Flat(b) ensures Before(c, i, j) {
      FlatMember(a, i);
      FlatMember(b, j);
      var p :| 0 <= p < |a| && i in a[p];
      var q :| 0 <= q < |b| && j in b[q];
      assert (a + b)[p] == a[p] && (a + b)[|a| + q] == b[q];
    }
  }

  lemma KeepInside(group: seq<nat>, removed: seq<nat>)
    ensures forall i :: i in Keep(group, removed) ==> i in group
  {
    forall i | i in Keep(group, removed) ensures i in group {
      KeepMember(group, removed, i);
    }
  }

  lemma {:induction false} WithoutInOrder(c: Ctx, groups: seq<seq<nat>>, removed: seq<nat>)
    requires InOrder(c, groups)
    ensures InOrder(c, WithoutIndexes(groups, removed))
  {
    hide AllBefore;
    if groups != [] {
      var init, last := groups[..|groups| - 1], groups[|groups| - 1];
      WithoutInOrder(c, init, removed);
      KeepInside(last, removed);
      var kept := WithoutIndexes(init, removed);
      forall p | 0 <= p < |kept| ensures AllBefore(c, kept[p], Keep(last, removed)) {
        KeptIsInside(groups, init, removed, p);
        var q :| 0 <= q < |init| && forall i :: i in kept[p] ==> i in init[q];
        FewerBefore(c, init[q], last, kept[p], Keep(last, removed));
      }
    }
  }

  /** Every group that is left is part of one of the groups. */
  lemma {:induction false} KeptIsInside(groups: seq<seq<nat>>, init: seq<seq<nat>>, removed: seq<nat>, p: nat)
    requires p < |WithoutIndexes(init, removed)|
    ensures exists q :: 0 <= q < |init| && forall i :: i in WithoutIndexes(init, removed)[p] ==> i in init[q]
  {
    var before, last := init[..|init| - 1], init[|init| - 1];
    if p < |WithoutIndexes(before, removed)| {
      KeptIsInside(groups, before, removed, p);
      var q :| 0 <= q < |before| && forall i :: i in WithoutIndexes(before, removed)[p] ==> i in before[q];
      assert before[q] == init[q];
    } else {
      KeepInside(last, removed);
      assert init[|init| - 1] == last;
    }
  }

  ghost predicate FirstsAscend(groups: seq<seq<nat>>) {
    && (forall p :: 0 <= p < |groups| ==> groups[p] != [])
    && forall p, q :: 0 <= p < q < |groups| ==> groups[p][0] < groups[q][0]
  }

  /** A message joins a group at its end, or opens the last one. */
  lemma {:induction false} AddKeepsFirsts(c: Ctx, groups: seq<seq<nat>>, i: nat)
    requires i < |c.msgs| && forall p :: 0 <= p < |groups| ==> groups[p] != [] && InRange(c, groups[p])
    ensures var r := AddToGroup(c, groups, i);
      && (|r| == |groups| || (|r| == |groups| + 1 && r[|groups|] == [i]))
      && forall p :: 0 <= p < |groups| ==> r[p] != [] && r[p][0] == groups[p][0]
  {
    if groups != [] && Head(c, groups[0]) != c.OrderKey(i) {
      AddKeepsFirsts(c, groups[1..], i);
    }
  }

  ghost predicate FirstsBelow(groups: seq<seq<nat>>, n: nat) {
    FirstsAscend(groups) && forall p :: 0 <= p < |groups| ==> groups[p][0] < n
  }

  lemma AddKeepsOrder(c: Ctx, groups: seq<seq<nat>>, i: nat)
    requires i < |c.msgs| && FirstsBelow(groups, i) && forall p :: 0 <= p < |groups| ==> groups[p] != [] && InRange(c, groups[p])
    ensures FirstsBelow(AddToGroup(c, groups, i), i + 1)
  {
    hide AddToGroup;
    AddKeepsFirsts(c, groups, i);
    var r := AddToGroup(c, groups, i);
    forall p | 0 <= p < |r| ensures r[p] != [] && r[p][0] < i + 1 {
      assert p < |groups| ==> r[p][0] == groups[p][0];
    }
    forall p, q | 0 <= p < q < |r| ensures r[p][0] < r[q][0] {
      assert r[p][0] == groups[p][0];
      assert q < |groups| ==> r[q][0] == groups[q][0];
    }
  }

  lemma {:induction false} FirstsOfGroups(c: Ctx, n: nat)
    requires n <= |c.msgs|
    ensures FirstsBelow(GroupsOf(c, n), n)
  {
    hide AddToGroup, FirstsBelow, ValidGroups;
    if n == 0 {
      NoFirsts(GroupsOf(c, n));
    } else {
      FirstsOfGroups(c, n - 1);
      AddKeepsOrder(c, GroupsOf(c, n - 1), n - 1);
    }
  }

  lemma NoFirsts(groups: seq<seq<nat>>)
    requires groups == []
    ensures FirstsBelow(groups, 0)
  {
  }

  /** The first message of a group opens its order key. */
  lemma GroupOpens(c: Ctx, p: nat, i: nat)
    requires ValidGroups(c, GroupsOf(c, |c.msgs|)) && p < |GroupsOf(c, |c.msgs|)| && i in GroupsOf(c, |c.msgs|)[p]
    ensures var group := GroupsOf(c, |c.msgs|)[p];
      && i < |c.msgs| && group[0] <= i && c.OrderKey(group[0]) == c.OrderKey(i)
      && forall h :: Opener(c, h, i) ==> h == group[0]
  {
    var groups := GroupsOf(c, |c.msgs|);
    var group := groups[p];
    assert ValidGroup(c, group);
    var k := IndexOf(group, i);
    forall h | Opener(c, h, i) ensures h == group[0] {
      GroupsOfValid(c, |c.msgs|);
      FlatMember(groups, h);
      var q :| 0 <= q < |groups| && h in groups[q];
      assert ValidGroup(c, groups[q]);
      var l := IndexOf(groups[q], h);
      assert Head(c, groups[q]) == Head(c, group);
      assert q == p;
      assert group[0] <= h;
    }
  }

  lemma GroupsOfInOrder(c: Ctx)
    requires c.ordered
    ensures ValidGroups(c, GroupsOf(c, |c.msgs|)) && InOrder(c, GroupsOf(c, |c.msgs|))
  {
    GroupsOfValid(c, |c.msgs|);
    FirstsOfGroups(c, |c.msgs|);
    var groups := GroupsOf(c, |c.msgs|);
    forall p, q | 0 <= p < q < |groups| ensures AllBefore(c, groups[p], groups[q]) {
      forall i, j | i in groups[p] && j in groups[q] ensures Before(c, i, j) {
        GroupOpens(c, p, i);
        GroupOpens(c, q, j);
        assert Head(c, groups[p]) != Head(c, groups[q]);
      }
    }
  }

  lemma {:induction false} BisectGroupsTraced(c: Ctx, budget: nat, groups: seq<seq<nat>>, s: State)
    requires ValidGroups(c, groups) && InOrder(c, groups) && c.ordered
    requires |s.results| == |c.msgs| && Untouched(s, Flat(groups)) && Left(c, budget, s)
    ensures var e := BisectGroups(c, groups, s);
      Traced(c, budget, Flat(groups), s, e) && (Sort(Flat(groups)) != [] ==> Opens(s, e, Sort(Flat(groups))))
    decreases |Flat(groups)|, s.budget, 2
  {
    hide Attempt, Traced, Left, Opens, Write, Transients, InOrder, Ordered;
    SubsetOfValid(c, groups);
    SortSorts(Flat(groups));
    var subset := Sort(Flat(groups));
    var e := BisectGroups(c, groups, s);
    if subset == [] {
      assert |Flat(groups)| == 0;
      Nothing(c, budget, s);
    } else {
      SameInside(subset, Flat(groups));
      var (next, outcome) := Attempt(c, subset, s);
      AttemptKeeps(c, subset, s);
      AttemptLeaves(c, budget, subset, s);
      match outcome
      case Committed(_) =>
        CommitTraced(c, budget, subset, s);
        TracedSame(c, budget, subset, Flat(groups), s, e);
      case RolledBack(Violation(blocked)) => GroupsViolationTraced(c, budget, groups, s);
      case RolledBack(Fault(err)) =>
        if c.transient(err) {
          if next.budget > 0 {
            BisectGroupsTraced(c, budget, groups, Spend(next));
            RetryTraced(c, budget, subset, Flat(groups), s, e);
          } else {
            GiveUpTraced(c, budget, subset, s, err);
            TracedSame(c, budget, subset, Flat(groups), s, e);
          }
        } else if |groups| == 1 {
          OneGroupTraced(c, budget, groups, s, err);
        } else {
          GroupHalvesTraced(c, budget, groups, next);
          FaultTraced(c, budget, subset, Flat(groups), s, e);
        }
    }
  }

  /** The last group has failed, and its bisection goes on with that error. */
  lemma OneGroupTraced(c: Ctx, budget: nat, groups: seq<seq<nat>>, s: State, err: Error)
    requires ValidGroups(c, groups) && |groups| == 1 && c.ordered
    requires |s.results| == |c.msgs| && Untouched(s, Flat(groups)) && Left(c, budget, s)
    requires InRange(c, Sort(Flat(groups))) && Attempt(c, Sort(Flat(groups)), s).1 == RolledBack(Fault(err)) && !c.transient(err)
    ensures var e := Ordered(c, groups[0], Some(err), false, Attempt(c, Sort(Flat(groups)), s).0).0;
      Traced(c, budget, Flat(groups), s, e) && Opens(s, e, Sort(Flat(groups)))
  {
    hide Attempt, Traced, Left, Opens, Transients, OneKey;
    OneGroup(c, groups);
    var group := groups[0];
    var next := Attempt(c, group, s).0;
    AttemptLeaves(c, budget, group, s);
    AttemptKeeps(c, group, s);
    if |group| == 1 {
      AloneTraced(c, budget, group, s, err);
    } else {
      OrderedHalvesTraced(c, budget, group, err, false, next);
      FaultTraced(c, budget, group, group, s, Ordered(c, group, Some(err), false, next).0);
    }
  }

  lemma {:induction false} GroupHalvesTraced(c: Ctx, budget: nat, groups: seq<seq<nat>>, s: State)
    requires ValidGroups(c, groups) && InOrder(c, groups) && c.ordered && |groups| > 1
    requires |s.results| == |c.msgs| && Untouched(s, Flat(groups)) && Left(c, budget, s)
    ensures var middle := |groups| / 2;
      && ValidGroups(c, groups[..middle]) && ValidGroups(c, groups[middle..])
      && Traced(c, budget, Flat(groups), s, BisectGroups(c, groups[middle..], BisectGroups(c, groups[..middle], s)))
    decreases |Flat(groups)|, s.budget, 0
  {
    hide Attempt, Left, Opens, AllBefore, InOrder, BisectGroups, Logged, Claimed, Justified, Transients;
    var middle := |groups| / 2;
    var a, b := groups[..middle], groups[middle..];
    HalvesShrink(c, groups, middle);
    assert groups == a + b;
    FlatConcat(a, b);
    FlatOfValid(c, groups);
    FlatBefore(c, a, b);
    BisectGroupsSound(c, a, s);
    BisectGroupsTraced(c, budget, a, s);
    var half := BisectGroups(c, a, s);
    WritesGrow(c, Flat(a), s, half);
    forall i | i in Flat(b) ensures i !in half.writes && i !in Flat(a) {
      DisjointHalves(Flat(a), Flat(b), i);
    }
    BisectGroupsSound(c, b, half);
    BisectGroupsTraced(c, budget, b, half);
    TracedThen(c, budget, Flat(a), Flat(b), s, half, BisectGroups(c, b, half));
  }

  /** After a violation the rest of the groups is still to be answered. */
  lemma HeldGroupsLeave(c: Ctx, budget: nat, groups: seq<seq<nat>>, s: State)
    requires ValidGroups(c, groups) && InOrder(c, groups) && c.ordered && Sort(Flat(groups)) != []
    requires |s.results| == |c.msgs| && Untouched(s, Flat(groups)) && Left(c, budget, s) && InRange(c, Sort(Flat(groups)))
    requires var outcome := Attempt(c, Sort(Flat(groups)), s).1; outcome.RolledBack? && outcome.failure.Violation?
    ensures var (next, outcome) := Attempt(c, Sort(Flat(groups)), s);
      var rest, held := WithoutIndexes(groups, outcome.failure.blocked), Block(c, next, outcome.failure.blocked);
      && ValidGroups(c, rest) && InOrder(c, rest) && |Flat(rest)| < |Flat(groups)| && held.budget == s.budget
      && (forall i :: i in Flat(rest) <==> i in Flat(groups) && i !in outcome.failure.blocked)
      && |held.results| == |c.msgs| && Untouched(held, Flat(rest)) && Left(c, budget, held)
  {
    hide Attempt, Left, Transients, InOrder, Logged, Claimed, Justified, ValidGroups, Flat, Sort, WithoutIndexes;
    SubsetOfValid(c, groups);
    var subset := Sort(Flat(groups));
    var (next, outcome) := Attempt(c, subset, s);
    var blocked := outcome.failure.blocked;
    AttemptKeeps(c, subset, s);
    AttemptLeaves(c, budget, subset, s);
    ViolationBlocks(c, subset, s);
    BlockSound(c, subset, s);
    BlockedInRange(c, subset, s);
    BlockedShrinks(c, groups, blocked);
    WithoutMembers(groups, blocked);
    WithoutInOrder(c, groups, blocked);
    WritesGrow(c, blocked, s, Block(c, next, blocked));
    WritesLeave(c, budget, next, blocked, i => Blocked(c));
  }

  lemma {:induction false} GroupsViolationTraced(c: Ctx, budget: nat, groups: seq<seq<nat>>, s: State)
    requires ValidGroups(c, groups) && InOrder(c, groups) && c.ordered && Sort(Flat(groups)) != []
    requires |s.results| == |c.msgs| && Untouched(s, Flat(groups)) && Left(c, budget, s) && InRange(c, Sort(Flat(groups)))
    requires var outcome := Attempt(c, Sort(Flat(groups)), s).1; outcome.RolledBack? && outcome.failure.Violation?
    ensures var e := BisectGroups(c, groups, s);
      Traced(c, budget, Flat(groups), s, e) && Opens(s, e, Sort(Flat(groups)))
    decreases |Flat(groups)|, s.budget, 1
  {
    hide Attempt, Traced, Left, Opens, Transients, InOrder, Logged, Claimed, Justified, ValidGroups, Flat, Sort,
        WithoutIndexes, Untouched, Write;
    HeldGroupsLeave(c, budget, groups, s);
    SubsetOfValid(c, groups);
    var subset := Sort(Flat(groups));
    var (next, outcome) := Attempt(c, subset, s);
    var rest := WithoutIndexes(groups, outcome.failure.blocked);
    var held := Block(c, next, outcome.failure.blocked);
    var e := BisectGroups(c, rest, held);
    BisectGroupsSound(c, rest, held);
    assert Kept(c, Flat(rest), held, e);
    BisectGroupsTraced(c, budget, rest, held);
    ViolationTraced(c, budget, subset, Flat(rest), Flat(groups), s, e);
  }

  lemma HandleTraced(c: Ctx, processed: set<string>, budget: nat)
    ensures Traced(c, budget, All(|c.msgs|), Initial(c, processed, budget), Handle(c, processed, budget))
    ensures c.msgs != [] ==> Opens(Initial(c, processed, budget), Handle(c, processed, budget), All(|c.msgs|))
  {
    hide Traced, Opens, Bisect, BisectGroups, InOrder, ValidGroups;
    var s := Initial(c, processed, budget);
    assert Left(c, budget, s);
    var all := All(|c.msgs|);
    if c.msgs == [] {
      Nothing(c, budget, s);
      assert all == [];
    } else if c.ordered {
      GroupsOfInOrder(c);
      WholeBatch(c);
      var groups := GroupsOf(c, |c.msgs|);
      BisectGroupsTraced(c, budget, groups, s);
      AllMember(|c.msgs|);
      TracedSame(c, budget, Flat(groups), all, s, Handle(c, processed, budget));
    } else {
      BisectTraced(c, budget, all, s);
    }
  }

  /** Over a whole call, against every handler: each transient error takes exactly one retry of the budget while there
      is one, and the next transaction is for the same messages; once there is none, every transient error is the
      answer of its messages. */
  lemma RetriesAreSpent(c: Ctx, processed: set<string>, budget: nat)
    ensures var e := Handle(c, processed, budget);
      && |e.results| == |c.msgs| && e.budget == Remaining(budget, Transients(c, e.trace))
      && forall k: nat :: k < |e.trace| ==> RetriedAt(c, budget, e, k)
  {
    hide Handle, RetriedAt, Transients;
    HandleTraced(c, processed, budget);
  }

  /** No message is answered with a transient error as long as the transient errors fit into the budget. */
  lemma TransientAnswerNeedsMore(c: Ctx, processed: set<string>, budget: nat, i: nat)
    requires i < |c.msgs|
    ensures var e := Handle(c, processed, budget);
      && |e.results| == |c.msgs| && Given(c, budget, e, i)
      && (Transients(c, e.trace) <= budget && e.results[i] != Blocked(c) ==>
            exists k: nat :: k < |e.trace| && !Transient(c, e.trace[k]) && Gives(c, budget, e.trace, k, i, e.results[i]))
  {
    hide Handle, Transients, Blocked, TransientResult, CommitsAscend, RetriedAt, Left;
    HandleTraced(c, processed, budget);
    AllMember(|c.msgs|);
    var e := Handle(c, processed, budget);
    assert i in All(|c.msgs|);
    if Transients(c, e.trace) <= budget && e.results[i] != Blocked(c) {
      var k: nat :| k < |e.trace| && Gives(c, budget, e.trace, k, i, e.results[i]);
      if Transient(c, e.trace[k]) {
        MoreTransients(c, e.trace, k);
      }
    }
  }

  lemma {:induction false} MoreTransients(c: Ctx, trace: seq<Entry>, k: nat)
    requires k < |trace| && Transient(c, trace[k])
    ensures Transients(c, trace[..k]) < Transients(c, trace)
  {
    var init := trace[..|trace| - 1];
    if k < |init| {
      assert init[..k] == trace[..k];
      MoreTransients(c, init, k);
    } else {
      assert init == trace[..k];
    }
  }

  /** The first transaction is for the whole batch, and of two committed transactions the earlier one is for earlier
      messages: in the order of the batch, or of the first messages of the order keys. */
  lemma CommitsFollowTheBatch(c: Ctx, processed: set<string>, budget: nat)
    ensures var e := Handle(c, processed, budget);
      && (c.msgs != [] ==> e.trace != [] && e.trace[0].subset == All(|c.msgs|))
      && forall k, l :: 0 <= k < l < |e.trace| && e.trace[k].outcome.Committed? && e.trace[l].outcome.Committed? ==>
           AllBefore(c, e.trace[k].subset, e.trace[l].subset)
  {
    hide Handle, Before;
    HandleTraced(c, processed, budget);
  }
}
