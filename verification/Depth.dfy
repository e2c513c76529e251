/** How often one message is tried in vain: a bisection halves, so no more often than the batch can be halved. */
module Depth {
  import opened BatchTypes
  import opened Attempts
  import opened Groups
  import opened AttemptFacts
  import opened Bisection
  import opened Soundness

  /** How often n messages can be halved, the larger half going on, until one is left. */
  function Levels(n: nat): nat {
    if n <= 1 then 0 else 1 + Levels((n + 1) / 2)
  }

  lemma {:induction false} LevelsGrow(m: nat, n: nat)
    requires m <= n
    ensures Levels(m) <= Levels(n)
  {
    if m > 1 {
      LevelsGrow((m + 1) / 2, (n + 1) / 2);
    }
  }

  lemma {:induction false} LevelsDouble(k: nat, n: nat)
    requires n <= Power(k)
    ensures Levels(n) <= k
  {
    if n > 1 {
      LevelsDouble(k - 1, (n + 1) / 2);
    }
  }

  function Power(k: nat): nat {
    if k == 0 then 1 else 2 * Power(k - 1)
  }

  /** The transactions for message i among others that failed with an error that is not transient. */
  ghost function Faults(c: Ctx, trace: seq<Entry>, i: nat): nat {
    if trace == [] then 0
    else
      var last := trace[|trace| - 1];
      Faults(c, trace[..|trace| - 1], i) +
      if i in last.subset && last.outcome.RolledBack? && last.outcome.failure.Fault? && !c.transient(last.outcome.failure.err)
      then 1 else 0
  }

  lemma AttemptFaults(c: Ctx, subset: seq<nat>, s: State, i: nat)
    requires InRange(c, subset) && Ascending(subset)
    ensures var (next, outcome) := Attempt(c, subset, s);
      && next.budget == s.budget
      && Faults(c, next.trace, i) == Faults(c, s.trace, i) +
           if i in subset && outcome.RolledBack? && outcome.failure.Fault? && !c.transient(outcome.failure.err) then 1 else 0
  {
    hide Attempt;
    AttemptKeeps(c, subset, s);
    assert Attempt(c, subset, s).0.trace[..|s.trace|] == s.trace;
  }

  /** At most bound vain transactions between s and e for the messages of idxs, and none for others. */
  ghost predicate Bounded(c: Ctx, idxs: seq<nat>, bound: nat, s: State, e: State) {
    forall i: nat :: Faults(c, s.trace, i) <= Faults(c, e.trace, i) <= Faults(c, s.trace, i) + if i in idxs then bound else 0
  }

  lemma HalvesBounded(c: Ctx, a: seq<nat>, b: seq<nat>, bound: nat, s: State, m: State, e: State)
    requires Bounded(c, a, bound, s, m) && Bounded(c, b, bound, m, e) && forall i :: i in a ==> i !in b
    ensures Bounded(c, a + b, bound, s, e)
  {
    forall i: nat ensures Faults(c, e.trace, i) <= Faults(c, s.trace, i) + if i in a + b then bound else 0 {
      assert i in a + b <==> i in a || i in b;
      assert Faults(c, m.trace, i) <= Faults(c, s.trace, i) + if i in a then bound else 0;
    }
    forall i: nat ensures Faults(c, s.trace, i) <= Faults(c, e.trace, i) {
      assert Faults(c, s.trace, i) <= Faults(c, m.trace, i);
    }
  }

  lemma FewerBounded(c: Ctx, a: seq<nat>, b: seq<nat>, bound: nat, more: nat, s: State, e: State)
    requires Bounded(c, a, bound, s, e) && bound <= more && forall i :: i in a ==> i in b
    ensures Bounded(c, b, more, s, e)
  {
    forall i: nat ensures Faults(c, s.trace, i) <= Faults(c, e.trace, i) <= Faults(c, s.trace, i) + if i in b then more else 0 {
    }
  }

  /** One transaction, and what follows it. */
  lemma AttemptBounded(c: Ctx, subset: seq<nat>, idxs: seq<nat>, bound: nat, s: State, m: State, e: State)
    requires InRange(c, subset) && Ascending(subset) && (forall i :: i in subset ==> i in idxs)
    requires m.trace == Attempt(c, subset, s).0.trace && Bounded(c, idxs, bound, m, e)
    ensures Bounded(c, idxs, bound + 1, s, e)
    ensures var outcome := Attempt(c, subset, s).1;
      outcome.Committed? || outcome.failure.Violation? || c.transient(outcome.failure.err) ==> Bounded(c, idxs, bound, s, e)
  {
    hide Attempt, Faults;
    forall i: nat
      ensures Faults(c, m.trace, i) == Faults(c, s.trace, i) || (i in idxs && Faults(c, m.trace, i) == Faults(c, s.trace, i) + 1)
    {
      AttemptFaults(c, subset, s, i);
    }
    var outcome := Attempt(c, subset, s).1;
    if outcome.Committed? || outcome.failure.Violation? || c.transient(outcome.failure.err) {
      forall i: nat ensures Faults(c, m.trace, i) == Faults(c, s.trace, i) {
        AttemptFaults(c, subset, s, i);
      }
    }
  }

  lemma SameTrace(c: Ctx, idxs: seq<nat>, s: State, e: State)
    requires e.trace == s.trace
    ensures Bounded(c, idxs, 0, s, e)
  {
    hide Faults;
  }

  /** One transaction, and nothing after it. */
  lemma OnlyAttempt(c: Ctx, subset: seq<nat>, idxs: seq<nat>, bound: nat, s: State, e: State)
    requires InRange(c, subset) && Ascending(subset) && (forall i :: i in subset ==> i in idxs)
    requires e.trace == Attempt(c, subset, s).0.trace
    ensures Bounded(c, idxs, bound + 1, s, e)
  {
    hide Attempt, Bounded;
    var next := Attempt(c, subset, s).0;
    SameTrace(c, idxs, next, e);
    AttemptBounded(c, subset, idxs, 0, s, next, e);
    FewerBounded(c, idxs, idxs, 1, bound + 1, s, e);
  }

  lemma SplitApart(subset: seq<nat>, middle: nat)
    requires Ascending(subset) && middle <= |subset|
    ensures subset[..middle] + subset[middle..] == subset && forall i :: i in subset[..middle] ==> i !in subset[middle..]
  {
    var a, b := subset[..middle], subset[middle..];
    forall i, j | i in a && j in b ensures i != j {
      var p := IndexOf(a, i);
      var q := IndexOf(b, j);
      assert subset[p] == i && subset[middle + q] == j;
    }
    assert a + b == subset;
  }

  lemma LevelsHalf(n: nat)
    requires n > 1
    ensures Levels(n) == 1 + Levels(n - n / 2)
  {
    assert n - n / 2 == (n + 1) / 2;
  }

  lemma {:induction false} BisectDepth(c: Ctx, subset: seq<nat>, s: State)
    requires subset != [] && InRange(c, subset) && Ascending(subset) && !c.ordered
    ensures Bounded(c, subset, Levels(|subset|) + 1, s, Bisect(c, subset, s))
    decreases |subset|, s.budget, 1
  {
    hide Attempt, Bounded, Levels;
    var (next, outcome) := Attempt(c, subset, s);
    var e, n := Bisect(c, subset, s), Levels(|subset|);
    AttemptKeeps(c, subset, s);
    match outcome
    case Committed(_) => OnlyAttempt(c, subset, subset, n, s, e);
    case RolledBack(failure) =>
      ViolationBlocks(c, subset, s);
      var err := FaultOf(failure);
      if c.transient(err) {
        if next.budget > 0 {
          BisectDepth(c, subset, Spend(next));
          AttemptBounded(c, subset, subset, n + 1, s, Spend(next), e);
        } else {
          GiveUpDepth(c, subset, n, s, err);
        }
      } else if |subset| == 1 {
        AloneDepth(c, subset, n, s, err);
      } else {
        BisectHalvesDepth(c, subset, next);
        AttemptBounded(c, subset, subset, n, s, next, e);
      }
  }

  lemma GiveUpDepth(c: Ctx, subset: seq<nat>, bound: nat, s: State, err: Error)
    requires InRange(c, subset) && Ascending(subset)
    ensures Bounded(c, subset, bound + 1, s, GiveUp(c, Attempt(c, subset, s).0, subset, err))
  {
    hide Attempt, Bounded;
    OnlyAttempt(c, subset, subset, bound, s, GiveUp(c, Attempt(c, subset, s).0, subset, err));
  }

  lemma AloneDepth(c: Ctx, subset: seq<nat>, bound: nat, s: State, err: Error)
    requires InRange(c, subset) && Ascending(subset)
    ensures Bounded(c, subset, bound + 1, s, Write(Attempt(c, subset, s).0, subset, i => Nak(err)))
  {
    hide Attempt, Bounded;
    OnlyAttempt(c, subset, subset, bound, s, Write(Attempt(c, subset, s).0, subset, i => Nak(err)));
  }

  lemma {:induction false} BisectHalvesDepth(c: Ctx, subset: seq<nat>, s: State)
    requires |subset| > 1 && InRange(c, subset) && Ascending(subset) && !c.ordered
    ensures var middle := |subset| / 2;
      Bounded(c, subset, Levels(|subset|), s, Bisect(c, subset[middle..], Bisect(c, subset[..middle], s)))
    decreases |subset|, s.budget, 0
  {
    hide Attempt, Bounded, Levels, Bisect;
    var middle, n := |subset| / 2, Levels(|subset|);
    var a, b := subset[..middle], subset[middle..];
    SplitApart(subset, middle);
    assert Ascending(a) && Ascending(b) && InRange(c, a) && InRange(c, b);
    var half := Bisect(c, a, s);
    BisectDepth(c, a, s);
    BisectDepth(c, b, half);
    LevelsHalf(|subset|);
    LevelsGrow(|a|, |b|);
    FewerBounded(c, a, a, Levels(|a|) + 1, n, s, half);
    HalvesBounded(c, a, b, n, s, half, Bisect(c, b, half));
  }

  lemma {:induction false} OrderedDepth(c: Ctx, group: seq<nat>, known: Option<Error>, failed: bool, s: State)
    requires InRange(c, group) && Ascending(group) && (known.Some? ==> group != [])
    ensures Bounded(c, group, Levels(|group|) + (if known.Some? then 0 else 1), s, Ordered(c, group, known, failed, s).0)
    decreases |group|, s.budget, if known.None? then 1 else 0
  {
    hide Attempt, Bounded;
    var e, n := Ordered(c, group, known, failed, s).0, Levels(|group|);
    if known.Some? {
      if |group| == 1 {
        SameTrace(c, group, s, e);
      } else {
        OrderedHalvesDepth(c, group, known.value, failed, s);
      }
    } else if group == [] {
      SameTrace(c, group, s, e);
      FewerBounded(c, group, group, 0, n + 1, s, e);
    } else {
      var (next, outcome) := Attempt(c, group, s);
      AttemptKeeps(c, group, s);
      match outcome
      case Committed(_) =>
        OnlyAttempt(c, group, group, n, s, e);
      case RolledBack(Violation(blocked)) => OrderedViolationDepth(c, group, failed, s);
      case RolledBack(Fault(err)) =>
        if !c.transient(err) {
          OrderedDepth(c, group, Some(err), failed, next);
          AttemptBounded(c, group, group, n, s, next, e);
        } else if next.budget > 0 {
          OrderedDepth(c, group, None, failed, Spend(next));
          AttemptBounded(c, group, group, n + 1, s, Spend(next), e);
        } else {
          OnlyAttempt(c, group, group, n, s, e);
        }
    }
  }

  lemma {:induction false} OrderedViolationDepth(c: Ctx, group: seq<nat>, failed: bool, s: State)
    requires group != [] && InRange(c, group) && Ascending(group)
    requires var outcome := Attempt(c, group, s).1; outcome.RolledBack? && outcome.failure.Violation?
    ensures Bounded(c, group, Levels(|group|) + 1, s, Ordered(c, group, None, failed, s).0)
    decreases |group|, s.budget, 0
  {
    hide Attempt, Bounded;
    var (next, outcome) := Attempt(c, group, s);
    var blocked := outcome.failure.blocked;
    var kept := Keep(group, blocked);
    var held := Block(c, next, blocked);
    ViolationBlocks(c, group, s);
    KeepAscends(group, blocked);
    KeepInRange(c, group, blocked);
    var e := Ordered(c, kept, None, true, held).0;
    OrderedDepth(c, kept, None, true, held);
    LevelsGrow(|kept|, |group|);
    forall i | i in kept ensures i in group {
      KeepMember(group, blocked, i);
    }
    FewerBounded(c, kept, group, Levels(|kept|) + 1, Levels(|group|) + 1, held, e);
    AttemptBounded(c, group, group, Levels(|group|) + 1, s, held, e);
  }

  lemma {:induction false} OrderedHalvesDepth(c: Ctx, group: seq<nat>, err: Error, failed: bool, s: State)
    requires |group| > 1 && InRange(c, group) && Ascending(group)
    ensures Bounded(c, group, Levels(|group|), s, Ordered(c, group, Some(err), failed, s).0)
    decreases |group|, s.budget, 0, 0
  {
    hide Attempt, Bounded, Levels;
    LevelsHalf(|group|);
    var middle, n := |group| / 2, Levels(|group|);
    var a, b := group[..middle], group[middle..];
    SplitApart(group, middle);
    var (half, prefixFailed) := Ordered(c, a, None, false, s);
    var e := Ordered(c, group, Some(err), failed, s).0;
    OrderedDepth(c, a, None, false, s);
    LevelsGrow(|a|, |b|);
    FewerBounded(c, a, a, Levels(|a|) + 1, n, s, half);
    if prefixFailed {
      SameTrace(c, b, half, e);
      FewerBounded(c, b, b, 0, n, half, e);
    } else {
      OrderedDepth(c, b, None, false, half);
    }
    HalvesBounded(c, a, b, n, s, half, e);
  }

  ghost predicate AtMost(groups: seq<seq<nat>>, size: nat) {
    forall p :: 0 <= p < |groups| ==> |groups[p]| <= size
  }

  lemma {:induction false} WithoutIsSmaller(groups: seq<seq<nat>>, removed: seq<nat>, size: nat)
    requires AtMost(groups, size)
    ensures |WithoutIndexes(groups, removed)| <= |groups| && AtMost(WithoutIndexes(groups, removed), size)
  {
    if groups != [] {
      WithoutIsSmaller(groups[..|groups| - 1], removed, size);
      KeepIsShorter(groups[|groups| - 1], removed);
    }
  }

  lemma {:induction false} KeepIsShorter(group: seq<nat>, removed: seq<nat>)
    ensures |Keep(group, removed)| <= |group|
  {
    if group != [] {
      KeepIsShorter(group[..|group| - 1], removed);
    }
  }

  /** Halving the groups, and then the messages of one group of at most size messages. */
  lemma {:induction false} BisectGroupsDepth(c: Ctx, groups: seq<seq<nat>>, size: nat, s: State)
    requires ValidGroups(c, groups) && AtMost(groups, size)
    ensures Bounded(c, Flat(groups), Levels(|groups|) + Levels(size) + 1, s, BisectGroups(c, groups, s))
    decreases |Flat(groups)|, s.budget, 2
  {
    hide Attempt, Bounded, Ordered, Levels, AtMost, ValidGroups, Flat, Sort;
    SubsetOfValid(c, groups);
    var subset, flat := Sort(Flat(groups)), Flat(groups);
    var e, n := BisectGroups(c, groups, s), Levels(|groups|) + Levels(size);
    if subset == [] {
      SameTrace(c, flat, s, e);
      FewerBounded(c, flat, flat, 0, n + 1, s, e);
    } else {
      var (next, outcome) := Attempt(c, subset, s);
      AttemptKeeps(c, subset, s);
      if outcome.RolledBack? && outcome.failure.Violation? {
        GroupsViolationDepth(c, groups, size, s);
      } else if outcome.RolledBack? && c.transient(outcome.failure.err) && next.budget > 0 {
        BisectGroupsDepth(c, groups, size, Spend(next));
        AttemptBounded(c, subset, flat, n + 1, s, Spend(next), e);
      } else if outcome.RolledBack? && !c.transient(outcome.failure.err) {
        GroupsFaultDepth(c, groups, size, s);
      } else {
        OnlyAttempt(c, subset, flat, n, s, e);
      }
    }
  }

  lemma {:induction false} GroupsFaultDepth(c: Ctx, groups: seq<seq<nat>>, size: nat, s: State)
    requires ValidGroups(c, groups) && AtMost(groups, size) && Sort(Flat(groups)) != [] && InRange(c, Sort(Flat(groups)))
    requires var outcome := Attempt(c, Sort(Flat(groups)), s).1;
      outcome.RolledBack? && outcome.failure.Fault? && !c.transient(outcome.failure.err)
    ensures Bounded(c, Flat(groups), Levels(|groups|) + Levels(size) + 1, s, BisectGroups(c, groups, s))
    decreases |Flat(groups)|, s.budget, 1
  {
    hide Attempt, Bounded, Ordered, Levels, ValidGroups, Flat, Sort;
    SubsetOfValid(c, groups);
    var subset, flat := Sort(Flat(groups)), Flat(groups);
    var e, n := BisectGroups(c, groups, s), Levels(|groups|) + Levels(size);
    var (next, outcome) := Attempt(c, subset, s);
    AttemptKeeps(c, subset, s);
    if |groups| == 1 {
      OneGroupDepth(c, groups, size, outcome.failure.err, next);
    } else {
      NoGroups(groups);
      GroupHalvesDepth(c, groups, size, next);
    }
    AttemptBounded(c, subset, flat, n, s, next, e);
  }

  lemma NoGroups(groups: seq<seq<nat>>)
    requires Sort(Flat(groups)) != []
    ensures groups != []
  {
    assert groups == [] ==> Flat(groups) == [];
  }

  lemma OneGroupDepth(c: Ctx, groups: seq<seq<nat>>, size: nat, err: Error, s: State)
    requires ValidGroups(c, groups) && AtMost(groups, size) && |groups| == 1
    ensures OneKey(c, groups[0])
    ensures Bounded(c, Flat(groups), Levels(1) + Levels(size), s, Ordered(c, groups[0], Some(err), false, s).0)
  {
    hide Bounded, Ordered, Sort;
    OneGroup(c, groups);
    var group := groups[0];
    OrderedDepth(c, group, Some(err), false, s);
    LevelsGrow(|group|, size);
    FewerBounded(c, group, Flat(groups), Levels(|group|), Levels(1) + Levels(size), s, Ordered(c, group, Some(err), false, s).0);
  }

  lemma {:induction false} GroupsViolationDepth(c: Ctx, groups: seq<seq<nat>>, size: nat, s: State)
    requires ValidGroups(c, groups) && AtMost(groups, size) && Sort(Flat(groups)) != [] && InRange(c, Sort(Flat(groups)))
    requires var outcome := Attempt(c, Sort(Flat(groups)), s).1; outcome.RolledBack? && outcome.failure.Violation?
    ensures Bounded(c, Flat(groups), Levels(|groups|) + Levels(size) + 1, s, BisectGroups(c, groups, s))
    decreases |Flat(groups)|, s.budget, 1
  {
    hide Attempt, Bounded, Ordered, Levels, AtMost, ValidGroups, Flat, Sort, WithoutIndexes;
    SubsetOfValid(c, groups);
    var subset, n := Sort(Flat(groups)), Levels(|groups|) + Levels(size) + 1;
    var (next, outcome) := Attempt(c, subset, s);
    AttemptKeeps(c, subset, s);
    var blocked := outcome.failure.blocked;
    var rest, held := WithoutIndexes(groups, blocked), Block(c, next, blocked);
    ViolationBlocks(c, subset, s);
    BlockedShrinks(c, groups, blocked);
    WithoutIsSmaller(groups, blocked, size);
    BisectGroupsDepth(c, rest, size, held);
    RestBounded(c, groups, blocked, size, held, BisectGroups(c, rest, held));
    AttemptBounded(c, subset, Flat(groups), n, s, held, BisectGroups(c, rest, held));
  }

  lemma RestBounded(c: Ctx, groups: seq<seq<nat>>, blocked: seq<nat>, size: nat, s: State, e: State)
    requires var rest := WithoutIndexes(groups, blocked);
      |rest| <= |groups| && Bounded(c, Flat(rest), Levels(|rest|) + Levels(size) + 1, s, e)
    ensures Bounded(c, Flat(groups), Levels(|groups|) + Levels(size) + 1, s, e)
  {
    hide Bounded, Flat, Levels, WithoutIndexes;
    var rest := WithoutIndexes(groups, blocked);
    WithoutMembers(groups, blocked);
    LevelsGrow(|rest|, |groups|);
    FewerBounded(c, Flat(rest), Flat(groups), Levels(|rest|) + Levels(size) + 1, Levels(|groups|) + Levels(size) + 1, s, e);
  }

  lemma {:induction false} GroupHalvesDepth(c: Ctx, groups: seq<seq<nat>>, size: nat, s: State)
    requires ValidGroups(c, groups) && AtMost(groups, size) && |groups| > 1
    ensures var middle := |groups| / 2;
      && ValidGroups(c, groups[..middle]) && ValidGroups(c, groups[middle..])
      && Bounded(c, Flat(groups), Levels(|groups|) + Levels(size), s,
                 BisectGroups(c, groups[middle..], BisectGroups(c, groups[..middle], s)))
    decreases |Flat(groups)|, s.budget, 0
  {
    hide Attempt, Bounded, BisectGroups, Flat;
    var middle, n := |groups| / 2, Levels(|groups|) + Levels(size);
    var a, b := groups[..middle], groups[middle..];
    HalvesShrink(c, groups, middle);
    assert groups == a + b;
    FlatConcat(a, b);
    FlatOfValid(c, groups);
    var half := BisectGroups(c, a, s);
    var e := BisectGroups(c, b, half);
    BisectGroupsDepth(c, a, size, s);
    BisectGroupsDepth(c, b, size, half);
    LevelsGrow(|a|, |b|);
    FewerBounded(c, Flat(a), Flat(a), Levels(|a|) + Levels(size) + 1, n, s, half);
    forall i | i in Flat(b) ensures i !in Flat(a) {
      DisjointHalves(Flat(a), Flat(b), i);
    }
    HalvesBounded(c, Flat(a), Flat(b), n, s, half, e);
  }

  /** In a whole call a message is tried in vain, but for transient errors and violations, at most once more often than
      the batch can be halved; with an order key, than the order keys and then the messages of one can be. */
  lemma HandleDepth(c: Ctx, processed: set<string>, budget: nat, i: nat, size: nat)
    requires AtMost(GroupsOf(c, |c.msgs|), size)
    ensures Faults(c, Handle(c, processed, budget).trace, i) <=
      (if c.ordered then Levels(|GroupsOf(c, |c.msgs|)|) + Levels(size) else Levels(|c.msgs|)) + 1
  {
    hide Bisect, BisectGroups, ValidGroups;
    var s := Initial(c, processed, budget);
    assert Faults(c, s.trace, i) == 0;
    if c.msgs != [] && c.ordered {
      GroupsOfValid(c, |c.msgs|);
      BisectGroupsDepth(c, GroupsOf(c, |c.msgs|), size, s);
    } else if c.msgs != [] {
      BisectDepth(c, All(|c.msgs|), s);
    }
  }
}
