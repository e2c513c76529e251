/** Bisection by index, by order-key groups and inside one group, as functions of the batch state. */
module Bisection {
  import opened BatchTypes
  import opened Attempts
  import opened Groups

  /** The error a failed attempt reports to the index bisection. */
  function FaultOf(failure: Failure): Error {
    match failure
    case Violation(_) => ERR_ORDER_BLOCKED
    case Fault(err) => err
  }

  ghost function Spend(s: State): State
    requires s.budget > 0
  {
    s.(budget := s.budget - 1)
  }

  ghost function GiveUp(c: Ctx, s: State, subset: seq<nat>, err: Error): State {
    Write(s, subset, i => TransientResult(c, err))
  }

  /** Index bisection: commit, retry a transient error, nak a single message, or split in halves. */
  ghost function Bisect(c: Ctx, subset: seq<nat>, s: State): State
    requires subset != [] && InRange(c, subset)
    decreases |subset|, s.budget
  {
    var (next, outcome) := Attempt(c, subset, s);
    match outcome
    case Committed(verdicts) => Record(next, subset, verdicts)
    case RolledBack(failure) =>
      var err := FaultOf(failure);
      if c.transient(err) then
        if next.budget > 0 then Bisect(c, subset, Spend(next)) else GiveUp(c, next, subset, err)
      else if |subset| == 1 then Write(next, subset, i => Nak(err))
      else
        var middle := |subset| / 2;
        Bisect(c, subset[middle..], Bisect(c, subset[..middle], next))
  }

  /** Group bisection: a violation blocks its tail and retries the rest, an error splits the groups,
      and a single failing group goes to the ordered bisection. */
  ghost function BisectGroups(c: Ctx, groups: seq<seq<nat>>, s: State): State
    requires ValidGroups(c, groups)
    decreases |Flat(groups)|, s.budget
  {
    SubsetOfValid(c, groups);
    var subset := Sort(Flat(groups));
    if subset == [] then s
    else
      var (next, outcome) := Attempt(c, subset, s);
      match outcome
      case Committed(verdicts) => Record(next, subset, verdicts)
      case RolledBack(Violation(blocked)) =>
        ViolationBlocks(c, subset, s);
        BlockedShrinks(c, groups, blocked);
        BisectGroups(c, WithoutIndexes(groups, blocked), Block(c, next, blocked))
      case RolledBack(Fault(err)) =>
        if c.transient(err) then
          if next.budget > 0 then BisectGroups(c, groups, Spend(next)) else GiveUp(c, next, subset, err)
        else if |groups| == 1 then Ordered(c, groups[0], Some(err), false, next).0
        else
          var middle := |groups| / 2;
          HalvesShrink(c, groups, middle);
          BisectGroups(c, groups[middle..], BisectGroups(c, groups[..middle], next))
  }

  /** Bisection inside one order key: known is the error the group has just failed with, failed says
      that some message of the group was blocked already. The second result tells whether some
      message of the group was not acked; a failed half blocks the half after it. */
  ghost function Ordered(c: Ctx, group: seq<nat>, known: Option<Error>, failed: bool, s: State): (State, bool)
    requires InRange(c, group) && Ascending(group)
    requires known.Some? ==> group != []
    decreases |group|, s.budget, if known.None? then 1 else 0
  {
    match known
    case Some(err) =>
      if |group| == 1 then (Write(s, group, i => Nak(err)), true)
      else
        var middle := |group| / 2;
        var (next, prefixFailed) := Ordered(c, group[..middle], None, false, s);
        if prefixFailed then (Block(c, next, group[middle..]), true)
        else
          var (last, suffixFailed) := Ordered(c, group[middle..], None, false, next);
          (last, suffixFailed || failed)
    case None =>
      if group == [] then (s, failed)
      else
        var (next, outcome) := Attempt(c, group, s);
        match outcome
        case Committed(verdicts) => (Record(next, group, verdicts), failed || FailedIn(group, verdicts))
        case RolledBack(Violation(blocked)) =>
          ViolationBlocks(c, group, s);
          KeepAscends(group, blocked);
          KeepInRange(c, group, blocked);
          Ordered(c, Keep(group, blocked), None, true, Block(c, next, blocked))
        case RolledBack(Fault(err)) =>
          if c.transient(err) then
            if next.budget > 0 then Ordered(c, group, None, failed, Spend(next))
            else (GiveUp(c, next, group, err), true)
          else Ordered(c, group, Some(err), failed, next)
  }

  predicate FailedIn(group: seq<nat>, verdicts: map<nat, Result>) {
    exists i :: i in group && i in verdicts && !Acked(verdicts[i])
  }

  /** The state a handle call starts from: every slot holds the zero result. */
  function Initial(c: Ctx, processed: set<string>, budget: nat): State {
    State(processed, [], budget, seq(|c.msgs|, _ => Result(VerdictNak, 0, None, 0)), [], [])
  }

  /** The whole of handle, before the results of one order key are linked. */
  ghost function Handle(c: Ctx, processed: set<string>, budget: nat): State {
    var s := Initial(c, processed, budget);
    if c.msgs == [] then s
    else if c.ordered then
      GroupsOfValid(c, |c.msgs|);
      BisectGroups(c, GroupsOf(c, |c.msgs|), s)
    else Bisect(c, All(|c.msgs|), s)
  }

  /** The indexes 0..n. */
  function All(n: nat): (all: seq<nat>)
    ensures |all| == n && Ascending(all)
    ensures forall p :: 0 <= p < n ==> all[p] == p
  {
    seq(n, i => i)
  }

  lemma AllMember(n: nat)
    ensures forall i: nat :: i in All(n) <==> i < n
  {
    forall i: nat | i < n ensures i in All(n) {
      assert All(n)[i] == i;
    }
  }

  /** A violation is never empty, lies inside the attempted set and leaves its first failure in place. */
  lemma ViolationBlocks(c: Ctx, subset: seq<nat>, s: State)
    requires InRange(c, subset)
    ensures var (next, outcome) := Attempt(c, subset, s);
      outcome.RolledBack? && outcome.failure.Violation? ==>
        && c.ordered && c.perMessage
        && (exists i :: i in outcome.failure.blocked && i in subset)
        && (forall i :: i in outcome.failure.blocked ==> i in subset)
  {
    var outcome := Attempt(c, subset, s).1;
    if outcome.RolledBack? && outcome.failure.Violation? {
      assert outcome.failure.blocked[0] in outcome.failure.blocked;
    }
  }

  lemma BlockedShrinks(c: Ctx, groups: seq<seq<nat>>, blocked: seq<nat>)
    requires ValidGroups(c, groups)
    requires exists i :: i in blocked && i in Sort(Flat(groups))
    ensures ValidGroups(c, WithoutIndexes(groups, blocked))
    ensures |Flat(WithoutIndexes(groups, blocked))| < |Flat(groups)|
  {
    WithoutValid(c, groups, blocked);
    WithoutShrinks(groups, blocked);
    SubsetOfValid(c, groups);
  }

  lemma HalvesShrink(c: Ctx, groups: seq<seq<nat>>, middle: nat)
    requires ValidGroups(c, groups) && 0 < middle < |groups|
    ensures ValidGroups(c, groups[..middle]) && ValidGroups(c, groups[middle..])
    ensures |Flat(groups)| == |Flat(groups[..middle])| + |Flat(groups[middle..])|
    ensures |Flat(groups[..middle])| > 0 && |Flat(groups[middle..])| > 0
  {
    assert groups == groups[..middle] + groups[middle..];
    FlatConcat(groups[..middle], groups[middle..]);
    FlatOfValid(c, groups[..middle]);
    FlatOfValid(c, groups[middle..]);
  }

  lemma KeepInRange(c: Ctx, group: seq<nat>, removed: seq<nat>)
    requires InRange(c, group)
    ensures InRange(c, Keep(group, removed))
  {
    var kept := Keep(group, removed);
    forall p | 0 <= p < |kept| ensures kept[p] < |c.msgs| {
      assert kept[p] in kept;
      KeepMember(group, removed, kept[p]);
    }
  }
}
