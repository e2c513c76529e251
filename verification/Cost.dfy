/** The number of transactions a batch opens, against every handler. */
module Cost {
  import opened BatchTypes
  import opened Attempts
  import opened Groups
  import opened AttemptFacts
  import opened Bisection
  import opened Soundness

  /** Transactions opened from s to e that no retry paid for. */
  ghost function Unpaid(s: State, e: State): int {
    |e.trace| - |s.trace| - (s.budget - e.budget)
  }

  function Bound(n: nat): nat {
    if n == 0 then 0 else 2 * n - 1
  }

  lemma {:induction false} BisectCost(c: Ctx, subset: seq<nat>, s: State)
    requires subset != [] && InRange(c, subset) && Ascending(subset)
    ensures Unpaid(s, Bisect(c, subset, s)) <= Bound(|subset|)
    decreases |subset|, s.budget
  {
    hide Attempt;
    var (next, outcome) := Attempt(c, subset, s);
    AttemptKeeps(c, subset, s);
    if outcome.RolledBack? {
      var err := FaultOf(outcome.failure);
      if c.transient(err) && next.budget > 0 {
        BisectCost(c, subset, Spend(next));
      } else if !c.transient(err) && |subset| > 1 {
        var middle := |subset| / 2;
        BisectCost(c, subset[..middle], next);
        BisectCost(c, subset[middle..], Bisect(c, subset[..middle], next));
      }
    }
  }

  lemma {:induction false} OrderedCost(c: Ctx, group: seq<nat>, known: Option<Error>, failed: bool, s: State)
    requires InRange(c, group) && Ascending(group) && (known.Some? ==> group != [])
    ensures Unpaid(s, Ordered(c, group, known, failed, s).0) <= Bound(|group|) - (if known.Some? then 1 else 0)
    decreases |group|, s.budget, if known.None? then 1 else 0
  {
    hide Attempt;
    if known.Some? {
      if |group| > 1 {
        var middle := |group| / 2;
        OrderedCost(c, group[..middle], None, false, s);
        OrderedCost(c, group[middle..], None, false, Ordered(c, group[..middle], None, false, s).0);
      }
    } else if group != [] {
      var (next, outcome) := Attempt(c, group, s);
      AttemptKeeps(c, group, s);
      match outcome
      case Committed(_) =>
      case RolledBack(Violation(blocked)) =>
        ViolationBlocks(c, group, s);
        KeepAscends(group, blocked);
        KeepInRange(c, group, blocked);
        OrderedCost(c, Keep(group, blocked), None, true, Block(c, next, blocked));
      case RolledBack(Fault(err)) =>
        if c.transient(err) && next.budget > 0 {
          OrderedCost(c, group, None, failed, Spend(next));
        } else if !c.transient(err) {
          OrderedCost(c, group, Some(err), failed, next);
        }
    }
  }

  lemma {:induction false} BisectGroupsCost(c: Ctx, groups: seq<seq<nat>>, s: State)
    requires ValidGroups(c, groups)
    ensures Unpaid(s, BisectGroups(c, groups, s)) <= Bound(|Flat(groups)|)
    decreases |Flat(groups)|, s.budget
  {
    hide Attempt;
    SubsetOfValid(c, groups);
    var subset := Sort(Flat(groups));
    if subset != [] {
      var (next, outcome) := Attempt(c, subset, s);
      AttemptKeeps(c, subset, s);
      match outcome
      case Committed(_) =>
      case RolledBack(Violation(blocked)) =>
        ViolationBlocks(c, subset, s);
        BlockedShrinks(c, groups, blocked);
        BisectGroupsCost(c, WithoutIndexes(groups, blocked), Block(c, next, blocked));
      case RolledBack(Fault(err)) =>
        if c.transient(err) && next.budget > 0 {
          BisectGroupsCost(c, groups, Spend(next));
        } else if !c.transient(err) && |groups| == 1 {
          OneGroup(c, groups);
          OrderedCost(c, groups[0], Some(err), false, next);
        } else if !c.transient(err) {
          var middle := |groups| / 2;
          HalvesShrink(c, groups, middle);
          BisectGroupsCost(c, groups[..middle], next);
          BisectGroupsCost(c, groups[middle..], BisectGroups(c, groups[..middle], next));
        }
    }
  }

  /** A batch of n messages opens at most 2n - 1 transactions and one more for each retry. */
  lemma HandleCost(c: Ctx, processed: set<string>, budget: nat)
    ensures |Handle(c, processed, budget).trace| <= Bound(|c.msgs|) + budget
  {
    hide Bisect, BisectGroups, ValidGroups;
    var s := Initial(c, processed, budget);
    if c.msgs != [] && c.ordered {
      var groups := GroupsOf(c, |c.msgs|);
      GroupsOfValid(c, |c.msgs|);
      BisectGroupsCost(c, groups, s);
      WholeBatch(c);
    } else if c.msgs != [] {
      BisectCost(c, All(|c.msgs|), s);
    }
  }
}
