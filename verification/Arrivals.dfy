/** Every interleaving with other calls is one that the arrivals of some oracle describe. */
module Arrivals {
  import opened BatchTypes
  import opened Attempts
  import opened Groups
  import opened AttemptFacts
  import opened Bisection
  import opened Cost
  import opened Interleaving

  /** The call with other arrivals: the same options, messages, handler and database errors. */
  ghost predicate SameBut(c: Ctx, d: Ctx) {
    && d == c.(oracle := d.oracle) && d.oracle.apply == c.oracle.apply
    && forall t: nat :: d.oracle.around(t) == c.oracle.around(t).(arrivals := d.oracle.around(t).arrivals)
  }

  /** The arrivals of the first n transactions agree. */
  ghost predicate Agree(c: Ctx, d: Ctx, n: nat) {
    SameBut(c, d) && forall t: nat :: t < n ==> d.oracle.around(t) == c.oracle.around(t)
  }

  lemma {:induction false} SameFresh(c: Ctx, d: Ctx, subset: seq<nat>, processed: set<string>)
    requires SameBut(c, d) && InRange(c, subset)
    ensures InRange(d, subset) && Keys(d, subset) == Keys(c, subset)
    ensures Fresh(d, subset, processed) == Fresh(c, subset, processed)
  {
    if subset != [] {
      SameFresh(c, d, subset[..|subset| - 1], processed);
    }
  }

  lemma SameFailsBefore(c: Ctx, d: Ctx, idxs: seq<nat>, applied: seq<Result>, p: nat)
    requires SameBut(c, d) && InRange(c, idxs) && |applied| == |idxs| && p < |idxs|
    ensures InRange(d, idxs) && FailsBefore(d, idxs, applied, p) == FailsBefore(c, idxs, applied, p)
  {
    assert forall f :: 0 <= f < |idxs| ==> d.OrderKey(idxs[f]) == c.OrderKey(idxs[f]);
  }

  lemma SameViolated(c: Ctx, d: Ctx, idxs: seq<nat>, applied: seq<Result>, key: string)
    requires SameBut(c, d) && InRange(c, idxs) && |applied| == |idxs|
    ensures InRange(d, idxs) && ViolatedKey(d, idxs, applied, key) == ViolatedKey(c, idxs, applied, key)
  {
    hide FailsBefore;
    forall a: nat | a < |idxs|
      ensures d.OrderKey(idxs[a]) == c.OrderKey(idxs[a]) && FailsBefore(d, idxs, applied, a) == FailsBefore(c, idxs, applied, a)
    {
      SameFailsBefore(c, d, idxs, applied, a);
    }
  }

  lemma {:induction false} SameViolations(c: Ctx, d: Ctx, idxs: seq<nat>, applied: seq<Result>, n: nat)
    requires SameBut(c, d) && InRange(c, idxs) && |applied| == |idxs| && n <= |idxs|
    ensures InRange(d, idxs) && ViolationsUpTo(d, idxs, applied, n) == ViolationsUpTo(c, idxs, applied, n)
  {
    hide FailsBefore, ViolatedKey;
    if n > 0 {
      SameViolations(c, d, idxs, applied, n - 1);
      SameFailsBefore(c, d, idxs, applied, n - 1);
      SameViolated(c, d, idxs, applied, c.OrderKey(idxs[n - 1]));
    }
  }

  /** How a transaction ends depends on the table it finds, not on how the table came to be. */
  lemma SameEnding(c: Ctx, d: Ctx, subset: seq<nat>, seen: set<string>, t: nat)
    requires SameBut(c, d) && InRange(c, subset)
    ensures InRange(d, subset) && Ending(d, subset, seen, t) == Ending(c, subset, seen, t)
    ensures Ending(c, subset, seen, t).Committed? ==>
      Released(d, Fresh(c, subset, seen), Ending(c, subset, seen, t).verdicts)
      == Released(c, Fresh(c, subset, seen), Ending(c, subset, seen, t).verdicts)
  {
    hide Fresh, ViolationsUpTo, Verdicts;
    SameFresh(c, d, subset, seen);
    var indexes := Fresh(c, subset, seen);
    var reply := c.oracle.apply(t, indexes);
    if reply.Answered? && |reply.results| == |indexes| {
      SameViolations(c, d, indexes, reply.results, |indexes|);
    }
  }

  lemma {:induction false} SameGroup(c: Ctx, d: Ctx, groups: seq<seq<nat>>, i: nat)
    requires SameBut(c, d) && i < |c.msgs| && forall p :: 0 <= p < |groups| ==> groups[p] != [] && InRange(c, groups[p])
    ensures (forall p :: 0 <= p < |groups| ==> InRange(d, groups[p])) && AddToGroup(d, groups, i) == AddToGroup(c, groups, i)
  {
    if groups != [] {
      SameGroup(c, d, groups[1..], i);
    }
  }

  lemma {:induction false} SameGroups(c: Ctx, d: Ctx, n: nat)
    requires SameBut(c, d) && n <= |c.msgs|
    ensures GroupsOf(d, n) == GroupsOf(c, n)
  {
    if n > 0 {
      SameGroups(c, d, n - 1);
      SameGroup(c, d, GroupsOf(c, n - 1), n - 1);
    }
  }

  /** Both runs have gone beyond transaction n: they agree on the transactions before it and on what it is for. */
  ghost predicate Parted(n: nat, a: State, b: State) {
    && |a.trace| > n && |b.trace| > n && a.trace[..n] == b.trace[..n] && a.trace[n].subset == b.trace[n].subset
  }

  ghost predicate Alike(n: nat, a: State, b: State) {
    a == b || Parted(n, a, b)
  }

  lemma PartedGrows(n: nat, a: State, b: State, e: State, f: State)
    requires Parted(n, a, b) && a.trace <= e.trace && b.trace <= f.trace
    ensures Parted(n, e, f)
  {
    assert e.trace[..n] == a.trace[..n] && f.trace[..n] == b.trace[..n];
  }

  lemma AttemptAlike(c: Ctx, d: Ctx, n: nat, subset: seq<nat>, s: State)
    requires Agree(c, d, n) && InRange(c, subset)
    ensures InRange(d, subset)
    ensures Attempt(d, subset, s) == Attempt(c, subset, s) || Parted(n, Attempt(c, subset, s).0, Attempt(d, subset, s).0)
  {
    hide Ending, Fresh, AckedOf, Released;
    SameFresh(c, d, subset, Seen(c, s));
    if |s.trace| < n {
      SameEnding(c, d, subset, Seen(c, s), |s.trace|);
    }
  }

  /** The first transaction of a bisection comes first in its trace. */
  lemma BisectBegins(c: Ctx, subset: seq<nat>, s: State)
    requires subset != [] && InRange(c, subset) && Ascending(subset)
    ensures Attempt(c, subset, s).0.trace <= Bisect(c, subset, s).trace
  {
    hide Attempt;
    var (next, outcome) := Attempt(c, subset, s);
    if outcome.RolledBack? {
      var err := FaultOf(outcome.failure);
      if c.transient(err) && next.budget > 0 {
        BisectExtends(c, subset, Spend(next));
      } else if !c.transient(err) && |subset| > 1 {
        var middle := |subset| / 2;
        BisectExtends(c, subset[..middle], next);
        BisectExtends(c, subset[middle..], Bisect(c, subset[..middle], next));
      }
    }
  }

  lemma BisectExtends(c: Ctx, subset: seq<nat>, s: State)
    requires subset != [] && InRange(c, subset) && Ascending(subset)
    ensures s.trace <= Bisect(c, subset, s).trace
  {
    hide Bisect, Steps;
    BisectSteps(c, subset, s);
    StepsGrow(c, CoreOf(s), CoreOf(Bisect(c, subset, s)));
  }

  lemma {:induction false} BisectAlike(c: Ctx, d: Ctx, n: nat, subset: seq<nat>, s: State)
    requires Agree(c, d, n) && subset != [] && InRange(c, subset) && Ascending(subset)
    ensures InRange(d, subset) && Alike(n, Bisect(c, subset, s), Bisect(d, subset, s))
    decreases |subset|, s.budget
  {
    hide Attempt, Agree;
    AttemptAlike(c, d, n, subset, s);
    var (next, outcome) := Attempt(c, subset, s);
    AttemptKeeps(c, subset, s);
    if Attempt(d, subset, s) != Attempt(c, subset, s) {
      BisectBegins(c, subset, s);
      BisectBegins(d, subset, s);
      PartedGrows(n, next, Attempt(d, subset, s).0, Bisect(c, subset, s), Bisect(d, subset, s));
    } else if outcome.RolledBack? {
      SameOptions(c, d, n);
      var err := FaultOf(outcome.failure);
      if c.transient(err) {
        if next.budget > 0 {
          BisectAlike(c, d, n, subset, Spend(next));
        }
      } else if |subset| > 1 {
        BisectHalvesAlike(c, d, n, subset, next);
      }
    } else {
      SameOptions(c, d, n);
    }
  }

  lemma {:induction false} BisectHalvesAlike(c: Ctx, d: Ctx, n: nat, subset: seq<nat>, s: State)
    requires Agree(c, d, n) && |subset| > 1 && InRange(c, subset) && Ascending(subset)
    ensures InRange(d, subset)
    ensures var middle := |subset| / 2;
      Alike(n, Bisect(c, subset[middle..], Bisect(c, subset[..middle], s)), Bisect(d, subset[middle..], Bisect(d, subset[..middle], s)))
    decreases |subset|, 0, 0
  {
    hide Agree, Bisect;
    var middle := |subset| / 2;
    var a, b := subset[..middle], subset[middle..];
    BisectAlike(c, d, n, a, s);
    var half, other := Bisect(c, a, s), Bisect(d, a, s);
    BisectAlike(c, d, n, b, half);
    if half != other {
      BisectExtends(c, b, half);
      BisectExtends(d, b, other);
      PartedGrows(n, half, other, Bisect(c, b, half), Bisect(d, b, other));
    }
  }

  /** What the bisection reads of the options. */
  lemma SameOptions(c: Ctx, d: Ctx, n: nat)
    requires Agree(c, d, n)
    ensures d.transient == c.transient && Blocked(d) == Blocked(c) && |d.msgs| == |c.msgs|
    ensures forall err: Error :: TransientResult(d, err) == TransientResult(c, err)
    ensures forall idxs :: InRange(d, idxs) == InRange(c, idxs)
  {
  }

  lemma OrderedBegins(c: Ctx, group: seq<nat>, failed: bool, s: State)
    requires group != [] && InRange(c, group) && Ascending(group)
    ensures Attempt(c, group, s).0.trace <= Ordered(c, group, None, failed, s).0.trace
  {
    hide Attempt;
    var (next, outcome) := Attempt(c, group, s);
    match outcome
    case Committed(_) =>
    case RolledBack(Violation(blocked)) =>
      ViolationBlocks(c, group, s);
      KeepAscends(group, blocked);
      KeepInRange(c, group, blocked);
      OrderedExtends(c, Keep(group, blocked), None, true, Block(c, next, blocked));
    case RolledBack(Fault(err)) =>
      if !c.transient(err) {
        OrderedExtends(c, group, Some(err), failed, next);
      } else if next.budget > 0 {
        OrderedExtends(c, group, None, failed, Spend(next));
      }
  }

  lemma OrderedExtends(c: Ctx, group: seq<nat>, known: Option<Error>, failed: bool, s: State)
    requires InRange(c, group) && Ascending(group) && (known.Some? ==> group != [])
    ensures s.trace <= Ordered(c, group, known, failed, s).0.trace
  {
    hide Ordered, Steps;
    OrderedSteps(c, group, known, failed, s);
    StepsGrow(c, CoreOf(s), CoreOf(Ordered(c, group, known, failed, s).0));
  }

  /** Alike, with the same answer while the states are equal. */
  ghost predicate AnswerAlike(n: nat, a: (State, bool), b: (State, bool)) {
    a == b || Parted(n, a.0, b.0)
  }

  lemma {:induction false} OrderedAlike(c: Ctx, d: Ctx, n: nat, group: seq<nat>, known: Option<Error>, failed: bool, s: State)
    requires Agree(c, d, n) && InRange(c, group) && Ascending(group) && (known.Some? ==> group != [])
    ensures InRange(d, group) && AnswerAlike(n, Ordered(c, group, known, failed, s), Ordered(d, group, known, failed, s))
    decreases |group|, s.budget, if known.None? then 1 else 0
  {
    hide Attempt, Agree;
    SameOptions(c, d, n);
    if known.Some? {
      if |group| > 1 {
        OrderedHalvesAlike(c, d, n, group, known.value, failed, s);
      }
    } else if group != [] {
      AttemptAlike(c, d, n, group, s);
      AttemptKeeps(c, group, s);
      if Attempt(d, group, s) == Attempt(c, group, s) {
        OrderedSameAttempt(c, d, n, group, failed, s);
      } else {
        OrderedBegins(c, group, failed, s);
        OrderedBegins(d, group, failed, s);
        PartedGrows(n, Attempt(c, group, s).0, Attempt(d, group, s).0,
                    Ordered(c, group, None, failed, s).0, Ordered(d, group, None, failed, s).0);
      }
    }
  }

  lemma {:induction false} OrderedSameAttempt(c: Ctx, d: Ctx, n: nat, group: seq<nat>, failed: bool, s: State)
    requires Agree(c, d, n) && group != [] && InRange(c, group) && Ascending(group) && InRange(d, group)
    requires Attempt(d, group, s) == Attempt(c, group, s)
    ensures AnswerAlike(n, Ordered(c, group, None, failed, s), Ordered(d, group, None, failed, s))
    decreases |group|, s.budget, 1, 0
  {
    hide Attempt, Agree;
    SameOptions(c, d, n);
    var (next, outcome) := Attempt(c, group, s);
    AttemptKeeps(c, group, s);
    match outcome
    case Committed(_) =>
    case RolledBack(Violation(blocked)) =>
      ViolationBlocks(c, group, s);
      KeepAscends(group, blocked);
      KeepInRange(c, group, blocked);
      OrderedAlike(c, d, n, Keep(group, blocked), None, true, Block(c, next, blocked));
    case RolledBack(Fault(err)) =>
      if !c.transient(err) {
        OrderedAlike(c, d, n, group, Some(err), failed, next);
      } else if next.budget > 0 {
        OrderedAlike(c, d, n, group, None, failed, Spend(next));
      }
  }

  lemma {:induction false} OrderedHalvesAlike(c: Ctx, d: Ctx, n: nat, group: seq<nat>, err: Error, failed: bool, s: State)
    requires Agree(c, d, n) && |group| > 1 && InRange(c, group) && Ascending(group) && InRange(d, group)
    ensures AnswerAlike(n, Ordered(c, group, Some(err), failed, s), Ordered(d, group, Some(err), failed, s))
    decreases |group|, s.budget, 0, 0
  {
    hide Attempt, Agree;
    SameOptions(c, d, n);
    var middle := |group| / 2;
    var a, b := group[..middle], group[middle..];
    OrderedAlike(c, d, n, a, None, false, s);
    var (half, prefixFailed) := Ordered(c, a, None, false, s);
    var (other, otherFailed) := Ordered(d, a, None, false, s);
    if (half, prefixFailed) == (other, otherFailed) {
      if !prefixFailed {
        OrderedAlike(c, d, n, b, None, false, half);
      }
    } else {
      OrderedExtends(c, b, None, false, half);
      OrderedExtends(d, b, None, false, other);
      PartedGrows(n, half, other, Ordered(c, group, Some(err), failed, s).0, Ordered(d, group, Some(err), failed, s).0);
    }
  }

  lemma SameValidGroups(c: Ctx, d: Ctx, n: nat, groups: seq<seq<nat>>)
    requires Agree(c, d, n) && ValidGroups(c, groups)
    ensures ValidGroups(d, groups)
  {
    forall p | 0 <= p < |groups| ensures ValidGroup(d, groups[p]) && Head(d, groups[p]) == Head(c, groups[p]) {
      assert ValidGroup(c, groups[p]);
    }
  }

  lemma GroupsExtend(c: Ctx, groups: seq<seq<nat>>, s: State)
    requires ValidGroups(c, groups)
    ensures s.trace <= BisectGroups(c, groups, s).trace
  {
    hide BisectGroups, Steps;
    BisectGroupsSteps(c, groups, s);
    StepsGrow(c, CoreOf(s), CoreOf(BisectGroups(c, groups, s)));
  }

  lemma GroupsBegin(c: Ctx, groups: seq<seq<nat>>, s: State)
    requires ValidGroups(c, groups) && Sort(Flat(groups)) != [] && InRange(c, Sort(Flat(groups)))
    ensures Attempt(c, Sort(Flat(groups)), s).0.trace <= BisectGroups(c, groups, s).trace
  {
    hide Attempt, Ordered;
    SubsetOfValid(c, groups);
    var subset := Sort(Flat(groups));
    var (next, outcome) := Attempt(c, subset, s);
    match outcome
    case Committed(_) =>
    case RolledBack(Violation(blocked)) =>
      ViolationBlocks(c, subset, s);
      BlockedShrinks(c, groups, blocked);
      GroupsExtend(c, WithoutIndexes(groups, blocked), Block(c, next, blocked));
    case RolledBack(Fault(err)) =>
      if c.transient(err) {
        if next.budget > 0 {
          GroupsExtend(c, groups, Spend(next));
        }
      } else if |groups| == 1 {
        OrderedExtends(c, groups[0], Some(err), false, next);
      } else {
        var middle := |groups| / 2;
        HalvesShrink(c, groups, middle);
        GroupsExtend(c, groups[..middle], next);
        GroupsExtend(c, groups[middle..], BisectGroups(c, groups[..middle], next));
      }
  }

  lemma {:induction false} BisectGroupsAlike(c: Ctx, d: Ctx, n: nat, groups: seq<seq<nat>>, s: State)
    requires Agree(c, d, n) && ValidGroups(c, groups)
    ensures ValidGroups(d, groups) && Alike(n, BisectGroups(c, groups, s), BisectGroups(d, groups, s))
    decreases |Flat(groups)|, s.budget
  {
    hide Attempt, Agree, Ordered;
    SameOptions(c, d, n);
    SameValidGroups(c, d, n, groups);
    SubsetOfValid(c, groups);
    var subset := Sort(Flat(groups));
    if subset != [] {
      AttemptAlike(c, d, n, subset, s);
      AttemptKeeps(c, subset, s);
      if Attempt(d, subset, s) == Attempt(c, subset, s) {
        GroupsSameAttempt(c, d, n, groups, s);
      } else {
        GroupsBegin(c, groups, s);
        GroupsBegin(d, groups, s);
        PartedGrows(n, Attempt(c, subset, s).0, Attempt(d, subset, s).0, BisectGroups(c, groups, s), BisectGroups(d, groups, s));
      }
    }
  }

  lemma {:induction false} GroupsSameAttempt(c: Ctx, d: Ctx, n: nat, groups: seq<seq<nat>>, s: State)
    requires Agree(c, d, n) && ValidGroups(c, groups) && ValidGroups(d, groups)
    requires var subset := Sort(Flat(groups));
      subset != [] && InRange(c, subset) && InRange(d, subset) && Attempt(d, subset, s) == Attempt(c, subset, s)
    ensures Alike(n, BisectGroups(c, groups, s), BisectGroups(d, groups, s))
    decreases |Flat(groups)|, s.budget, 1
  {
    hide Attempt, Agree, Ordered;
    SameOptions(c, d, n);
    SubsetOfValid(c, groups);
    var subset := Sort(Flat(groups));
    var (next, outcome) := Attempt(c, subset, s);
    AttemptKeeps(c, subset, s);
    match outcome
    case Committed(_) =>
    case RolledBack(Violation(blocked)) =>
      ViolationBlocks(c, subset, s);
      BlockedShrinks(c, groups, blocked);
      BisectGroupsAlike(c, d, n, WithoutIndexes(groups, blocked), Block(c, next, blocked));
    case RolledBack(Fault(err)) =>
      if c.transient(err) {
        if next.budget > 0 {
          BisectGroupsAlike(c, d, n, groups, Spend(next));
        }
      } else if |groups| == 1 {
        OrderedAlike(c, d, n, groups[0], Some(err), false, next);
      } else {
        GroupHalvesAlike(c, d, n, groups, next);
      }
  }

  lemma {:induction false} GroupHalvesAlike(c: Ctx, d: Ctx, n: nat, groups: seq<seq<nat>>, s: State)
    requires Agree(c, d, n) && ValidGroups(c, groups) && |groups| > 1
    ensures var middle := |groups| / 2;
      && ValidGroups(c, groups[..middle]) && ValidGroups(c, groups[middle..])
      && ValidGroups(d, groups[..middle]) && ValidGroups(d, groups[middle..])
      && Alike(n, BisectGroups(c, groups[middle..], BisectGroups(c, groups[..middle], s)),
               BisectGroups(d, groups[middle..], BisectGroups(d, groups[..middle], s)))
    decreases |Flat(groups)|, 0, 0
  {
    hide Agree, BisectGroups;
    var middle := |groups| / 2;
    var a, b := groups[..middle], groups[middle..];
    HalvesShrink(c, groups, middle);
    BisectGroupsAlike(c, d, n, a, s);
    var half, other := BisectGroups(c, a, s), BisectGroups(d, a, s);
    BisectGroupsAlike(c, d, n, b, half);
    if half != other {
      GroupsExtend(c, b, half);
      GroupsExtend(d, b, other);
      PartedGrows(n, half, other, BisectGroups(c, b, half), BisectGroups(d, b, other));
    }
  }

  /** What a call does before transaction n, and what transaction n is for, depends on the arrivals before n only. */
  lemma HandleAlike(c: Ctx, d: Ctx, n: nat, processed: set<string>, budget: nat)
    requires Agree(c, d, n)
    ensures Alike(n, Handle(c, processed, budget), Handle(d, processed, budget))
  {
    hide Bisect, BisectGroups, ValidGroups, Agree;
    SameOptions(c, d, n);
    assert SameBut(c, d) && c.msgs == d.msgs && c.ordered == d.ordered by { AgreeIs(c, d, n); }
    var s := Initial(c, processed, budget);
    if c.msgs != [] {
      if c.ordered {
        GroupsOfValid(c, |c.msgs|);
        SameGroups(c, d, |c.msgs|);
        BisectGroupsAlike(c, d, n, GroupsOf(c, |c.msgs|), s);
      } else {
        BisectAlike(c, d, n, All(|c.msgs|), s);
      }
    }
  }

  lemma AgreeIs(c: Ctx, d: Ctx, n: nat)
    requires Agree(c, d, n)
    ensures SameBut(c, d) && c.msgs == d.msgs && c.ordered == d.ordered
  {
  }

  /** A transaction on the shared table does not read the arrivals. */
  lemma SameCommit(c: Ctx, d: Ctx, w: World, call: nat, subset: seq<nat>, t: nat)
    requires SameBut(c, d) && Valid(Tx(call, c, subset, t))
    ensures Valid(Tx(call, d, subset, t)) && Commit(w, Tx(call, d, subset, t)) == Commit(w, Tx(call, c, subset, t))
  {
    hide Ending, Fresh, AckedOf, Released;
    SameFresh(c, d, subset, w.processed);
    SameEnding(c, d, subset, w.processed, t);
    var outcome := Ending(c, subset, w.processed, t);
    if outcome.Committed? {
      var log := AckedOf(Fresh(c, subset, w.processed), outcome.verdicts);
      AckedInRange(c, Fresh(c, subset, w.processed), outcome.verdicts);
      AckedInRange(d, Fresh(c, subset, w.processed), outcome.verdicts);
      assert EffectsOf(call, d, log) == EffectsOf(call, c, log);
    }
  }

  lemma SameFound(c: Ctx, d: Ctx, w: World, call: nat, a: seq<Entry>, b: seq<Entry>, others: nat -> seq<Tx>, k: nat)
    requires ValidTrace(c, a) && ValidTrace(d, b) && Others(call, others) && k < |a| && k < |b|
    requires Shared(w, Schedule(call, d, b, others, k)) == Shared(w, Schedule(call, c, a, others, k))
    ensures Found(w, call, d, b, others, k) == Found(w, call, c, a, others, k)
  {
  }

  lemma NextSchedule(c: Ctx, d: Ctx, w: World, call: nat, a: seq<Entry>, b: seq<Entry>, others: nat -> seq<Tx>, k: nat)
    requires SameBut(c, d) && ValidTrace(c, a) && ValidTrace(d, b) && Others(call, others)
    requires k < |a| && k < |b| && a[k].subset == b[k].subset
    requires Shared(w, Schedule(call, d, b, others, k)) == Shared(w, Schedule(call, c, a, others, k))
    ensures Shared(w, Schedule(call, d, b, others, k + 1)) == Shared(w, Schedule(call, c, a, others, k + 1))
  {
    hide Commit, Valid, Schedule, Shared, ValidTrace, SameBut, Others, Found;
    SameFound(c, d, w, call, a, b, others, k);
    LastOfSchedule(c, w, call, a, others, k + 1);
    LastOfSchedule(d, w, call, b, others, k + 1);
    SameCommit(c, d, Found(w, call, c, a, others, k), call, a[k].subset, k);
  }

  /** The worlds that two calls with the same subsets and other arrivals find are the same. */
  lemma {:induction false} SameSchedule(c: Ctx, d: Ctx, w: World, call: nat, a: seq<Entry>, b: seq<Entry>,
                                        others: nat -> seq<Tx>, k: nat)
    requires SameBut(c, d) && ValidTrace(c, a) && ValidTrace(d, b) && Others(call, others)
    requires k <= |a| && k <= |b| && forall t :: 0 <= t < k ==> a[t].subset == b[t].subset
    ensures Shared(w, Schedule(call, d, b, others, k)) == Shared(w, Schedule(call, c, a, others, k))
    decreases k
  {
    hide SameBut, ValidTrace, Others, Shared;
    if k > 0 {
      hide Schedule;
      SameSchedule(c, d, w, call, a, b, others, k - 1);
      NextSchedule(c, d, w, call, a, b, others, k - 1);
    }
  }

  lemma LastOfSchedule(c: Ctx, w: World, call: nat, trace: seq<Entry>, others: nat -> seq<Tx>, k: nat)
    requires ValidTrace(c, trace) && Others(call, others) && 0 < k <= |trace|
    ensures var x := Tx(call, c, trace[k - 1].subset, k - 1);
      Valid(x) && Shared(w, Schedule(call, c, trace, others, k)) == Commit(Found(w, call, c, trace, others, k - 1), x)
  {
    hide Commit;
    var past, x := Schedule(call, c, trace, others, k - 1), Tx(call, c, trace[k - 1].subset, k - 1);
    SharedThen(w, past, others(k - 1));
    var all := past + others(k - 1) + [x];
    assert all[..|all| - 1] == past + others(k - 1);
  }

  lemma {:induction false} StepsValid(c: Ctx, s: Core, e: Core)
    requires c.dedup && Steps(c, s, e) && ValidTrace(c, s.trace)
    ensures ValidTrace(c, e.trace)
    decreases |e.trace| - |s.trace|
  {
    if |s.trace| < |e.trace| {
      hide Next;
      var next := Next(c, e.trace[|s.trace|].subset, s);
      assert forall k :: 0 <= k < |s.trace| ==> next.trace[k] == s.trace[k];
      StepsValid(c, next, e);
    }
  }

  ghost function TraceOf(c: Ctx, w: World, budget: nat): seq<Entry> {
    Handle(c, w.processed, budget).trace
  }

  lemma TraceIsValid(c: Ctx, w: World, budget: nat)
    requires c.dedup
    ensures ValidTrace(c, TraceOf(c, w, budget))
  {
    hide Handle, Steps;
    HandleSteps(c, w.processed, budget);
    StepsValid(c, Core(w.processed, [], []), CoreOf(Handle(c, w.processed, budget)));
  }

  /** The arrivals are right for the first n transactions. */
  ghost predicate HeardUpTo(w: World, call: nat, c: Ctx, trace: seq<Entry>, others: nat -> seq<Tx>, n: nat) {
    && ValidTrace(c, trace) && Others(call, others)
    && forall k: nat :: k < |trace| && k < n ==>
         Found(w, call, c, trace, others, k).processed
         == Shared(w, Schedule(call, c, trace, others, k)).processed + c.oracle.around(k).arrivals
  }

  /** The call with arrivals for transaction n changed. */
  ghost function Hearing(c: Ctx, n: nat, arrivals: set<string>): Ctx {
    c.(oracle := Oracle((t: nat) => if t == n then c.oracle.around(t).(arrivals := arrivals) else c.oracle.around(t),
                        c.oracle.apply))
  }

  lemma HearingAgrees(c: Ctx, n: nat, arrivals: set<string>)
    ensures Agree(c, Hearing(c, n, arrivals), n) && Hearing(c, n, arrivals).oracle.around(n).arrivals == arrivals
  {
  }

  lemma SameButThen(c: Ctx, d: Ctx, e: Ctx)
    requires SameBut(c, d) && SameBut(d, e)
    ensures SameBut(c, e)
  {
  }

  /** What stays right when the arrivals of transaction n change. */
  lemma StillHeard(w: World, call: nat, c: Ctx, d: Ctx, budget: nat, others: nat -> seq<Tx>, n: nat, k: nat)
    requires c.dedup && d.dedup && Agree(c, d, n) && Others(call, others) && k < |TraceOf(d, w, budget)| && k <= n
    ensures ValidTrace(c, TraceOf(c, w, budget)) && ValidTrace(d, TraceOf(d, w, budget)) && k < |TraceOf(c, w, budget)|
    ensures var a, b := TraceOf(c, w, budget), TraceOf(d, w, budget);
      && Shared(w, Schedule(call, d, b, others, k)) == Shared(w, Schedule(call, c, a, others, k))
      && Found(w, call, d, b, others, k) == Found(w, call, c, a, others, k)
  {
    hide Handle, Agree, Commit;
    AgreeIs(c, d, n);
    TraceIsValid(c, w, budget);
    TraceIsValid(d, w, budget);
    HandleAlike(c, d, n, w.processed, budget);
    var a, b := TraceOf(c, w, budget), TraceOf(d, w, budget);
    forall t | 0 <= t < k ensures t < |a| && a[t].subset == b[t].subset {
      if Parted(n, Handle(c, w.processed, budget), Handle(d, w.processed, budget)) {
        assert a[t] == a[..n][t] && b[t] == b[..n][t];
      }
    }
    SameSchedule(c, d, w, call, a, b, others, k);
  }

  lemma {:induction false} HeardBy(w: World, call: nat, c: Ctx, budget: nat, others: nat -> seq<Tx>, n: nat) returns (d: Ctx)
    requires c.dedup && Others(call, others)
    ensures d.dedup && SameBut(c, d) && HeardUpTo(w, call, d, TraceOf(d, w, budget), others, n)
  {
    hide Handle, Commit, Valid;
    if n == 0 {
      d := c;
      TraceIsValid(d, w, budget);
    } else {
      var before := HeardBy(w, call, c, budget, others, n - 1);
      d := HeardNext(w, call, before, budget, others, n - 1);
      SameButThen(c, before, d);
    }
  }

  lemma HeardNext(w: World, call: nat, c: Ctx, budget: nat, others: nat -> seq<Tx>, n: nat) returns (d: Ctx)
    requires c.dedup && Others(call, others) && HeardUpTo(w, call, c, TraceOf(c, w, budget), others, n)
    ensures d.dedup && SameBut(c, d) && HeardUpTo(w, call, d, TraceOf(d, w, budget), others, n + 1)
  {
    hide TraceOf, Hearing, Valid, Commit, Schedule, Found, Shared;
    var a := TraceOf(c, w, budget);
    if |a| <= n {
      d := c;
      SameItself(c);
    } else {
      var found := Found(w, call, c, a, others, n);
      d := Hearing(c, n, found.processed);
      HearingAgrees(c, n, found.processed);
      AgreeIs(c, d, n);
      TraceIsValid(d, w, budget);
      var b := TraceOf(d, w, budget);
      forall k: nat | k < |b| && k < n + 1
        ensures Found(w, call, d, b, others, k).processed
                == Shared(w, Schedule(call, d, b, others, k)).processed + d.oracle.around(k).arrivals
      {
        StillHeard(w, call, c, d, budget, others, n, k);
        FoundGrows(w, call, c, a, others, k);
      }
    }
  }

  lemma SameItself(c: Ctx)
    ensures SameBut(c, c)
  {
  }

  lemma FoundGrows(w: World, call: nat, c: Ctx, trace: seq<Entry>, others: nat -> seq<Tx>, k: nat)
    requires ValidTrace(c, trace) && Others(call, others) && k < |trace|
    ensures Shared(w, Schedule(call, c, trace, others, k)).processed <= Found(w, call, c, trace, others, k).processed
  {
    SharedGrows(Shared(w, Schedule(call, c, trace, others, k)), others(k));
  }

  lemma {:induction false} SharedGrows(w: World, txs: seq<Tx>)
    requires forall x :: x in txs ==> Valid(x)
    ensures w.processed <= Shared(w, txs).processed
  {
    if txs != [] {
      hide Commit;
      SharedGrows(w, txs[..|txs| - 1]);
      CommitAdds(Shared(w, txs[..|txs| - 1]), txs[|txs| - 1]);
    }
  }

  /** Whatever the other calls do in between, some arrivals are exactly what they claim: the call runs against an
      oracle with the same answers that hears them. */
  lemma EveryInterleavingIsHeard(w: World, call: nat, c: Ctx, budget: nat, others: nat -> seq<Tx>) returns (d: Ctx)
    requires c.dedup && Others(call, others)
    ensures d.dedup && SameBut(c, d) && Heard(w, call, d, Handle(d, w.processed, budget).trace, others)
  {
    hide Handle, Valid, Commit;
    var bound := Bound(|c.msgs|) + budget;
    d := HeardBy(w, call, c, budget, others, bound);
    HandleCost(d, w.processed, budget);
  }

  /** A call among any others, whatever they do in between: with the arrivals that it hears, its transactions on the
      shared table end as the batch state says, with the same table at the end and the same effects in the same
      order, and every key still has its effects at most once. */
  lemma CallAmongOthers(w: World, call: nat, c: Ctx, budget: nat, others: nat -> seq<Tx>) returns (d: Ctx)
    requires c.dedup && Others(call, others) && KeysBy(call, w.effects) == [] && Once(w)
    ensures SameBut(c, d) && Heard(w, call, d, Handle(d, w.processed, budget).trace, others)
    ensures var e := Handle(d, w.processed, budget);
      var t := Shared(w, Schedule(call, d, e.trace, others, |e.trace|));
      && t.processed == e.processed && InRange(d, e.log) && KeysBy(call, t.effects) == KeysOf(d, e.log) && Once(t)
      && forall k :: 0 <= k < |e.trace| ==> EndsAlike(w, call, d, e.trace, others, k)
  {
    hide *;
    d := EveryInterleavingIsHeard(w, call, c, budget, others);
    CallIsItsTransactions(w, call, d, budget, others);
    HeardIsValid(w, call, d, Handle(d, w.processed, budget).trace, others);
  }
}
