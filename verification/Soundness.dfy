/** The three bisections are sound against every handler: each slot is answered once and for a reason,
    every effect is committed once under its own claim, and every ack holds its claim. */
module Soundness {
  import opened BatchTypes
  import opened Attempts
  import opened Groups
  import opened AttemptFacts
  import opened Bisection
  import opened Progress

  ghost predicate Untouched(s: State, idxs: seq<nat>) {
    forall i :: i in idxs ==> i !in s.writes
  }

  lemma {:induction false} SameMembers(a: seq<nat>, b: seq<nat>)
    requires NoRepeat(a) && NoRepeat(b) && forall i :: i in a <==> i in b
    ensures multiset(a) == multiset(b)
  {
    forall i ensures multiset(a)[i] == multiset(b)[i] {
      NoRepeatCount(a, i);
      NoRepeatCount(b, i);
      assert i in multiset(a) <==> i in a;
      assert i in multiset(b) <==> i in b;
    }
  }

  lemma {:induction false} BisectSound(c: Ctx, subset: seq<nat>, s: State)
    requires subset != [] && InRange(c, subset) && Ascending(subset)
    requires |s.results| == |c.msgs| && Untouched(s, subset) && !c.ordered
    ensures Sound(c, subset, s, Bisect(c, subset, s))
    decreases |subset|, s.budget
  {
    hide Kept, Logged, Claimed, Justified, Explains, Attempt;
    var (next, outcome) := Attempt(c, subset, s);
    AttemptKeeps(c, subset, s);
    match outcome
    case Committed(verdicts) => CommitSound(c, subset, s);
    case RolledBack(failure) =>
      ViolationBlocks(c, subset, s);
      RolledBackIsSilent(c, subset, s);
      var err := FaultOf(failure);
      if c.transient(err) && next.budget > 0 {
        BisectSound(c, subset, Spend(next));
        SilentThen(c, subset, s, Spend(next), Bisect(c, subset, s));
      } else if c.transient(err) || |subset| == 1 {
        FaultSound(c, subset, s);
      } else {
        var middle := |subset| / 2;
        var a, b := subset[..middle], subset[middle..];
        assert subset == a + b;
        BisectSound(c, a, next);
        var half := Bisect(c, a, next);
        WritesGrow(c, a, next, half);
        BisectSound(c, b, half);
        SoundThen(c, a, b, next, half, Bisect(c, b, half));
        SilentThen(c, subset, s, next, Bisect(c, subset, s));
      }
  }

  lemma NothingSound(c: Ctx, s: State)
    requires |s.results| == |c.msgs|
    ensures Sound(c, [], s, s)
  {
    assert NewLog(s, s) == [];
  }

  ghost predicate AllAcked(idxs: seq<nat>, results: seq<Result>) {
    forall i :: i in idxs && i < |results| ==> Acked(results[i])
  }

  /** The known error of an ordered bisection is the one its whole group has just failed with. */
  ghost predicate JustFailed(c: Ctx, group: seq<nat>, known: Option<Error>, s: State) {
    known.Some? ==>
      && group != [] && s.trace != []
      && s.trace[|s.trace| - 1] == Entry(group, RolledBack(Fault(known.value)))
      && !c.transient(known.value)
  }

  ghost predicate OneKey(c: Ctx, group: seq<nat>)
    requires InRange(c, group)
  {
    forall p, q :: 0 <= p < q < |group| ==> c.OrderKey(group[p]) == c.OrderKey(group[q])
  }

  /** All of b is behind all of a, in the same order key. */
  lemma TailBehind(c: Ctx, a: seq<nat>, b: seq<nat>)
    requires InRange(c, a + b) && Ascending(a + b) && OneKey(c, a + b)
    ensures InRange(c, a) && InRange(c, b) && NoRepeat(b)
    ensures forall i, j :: i in a && j in b ==> i < j && c.OrderKey(i) == c.OrderKey(j)
  {
    assert a == (a + b)[..|a|] && b == (a + b)[|a|..];
    forall i, j | i in a && j in b ensures i < j && i < |c.msgs| && j < |c.msgs| && c.OrderKey(i) == c.OrderKey(j) {
      var p := IndexOf(a, i);
      var q := IndexOf(b, j);
      assert (a + b)[p] == i && (a + b)[|a| + q] == j;
    }
  }

  lemma TailIsHeld(c: Ctx, b: seq<nat>, m: State, head: nat)
    requires |m.results| == |c.msgs| && InRange(c, b) && head < |c.msgs| && head in m.writes && !Acked(m.results[head])
    requires forall j :: j in b ==> head < j && c.OrderKey(head) == c.OrderKey(j)
    ensures Justified(c, b, Block(c, m, b))
  {
    var e := Block(c, m, b);
    assert head in e.writes && e.results[head] == m.results[head];
    forall i | i in b ensures Held(c, i, e) {
    }
  }

  /** A half that failed holds the half after it. */
  lemma HoldTail(c: Ctx, a: seq<nat>, b: seq<nat>, s: State, m: State)
    requires Sound(c, a, s, m) && !AllAcked(a, m.results)
    requires InRange(c, a + b) && Ascending(a + b) && OneKey(c, a + b) && Untouched(s, b)
    ensures Sound(c, a + b, s, Block(c, m, b))
  {
    hide Logged, Claimed, Justified, OneKey;
    WritesGrow(c, a, s, m);
    TailBehind(c, a, b);
    var e := Block(c, m, b);
    var head :| head in a && head < |m.results| && !Acked(m.results[head]);
    TailIsHeld(c, b, m, head);
    NonAckWrite(c, b, m, i => Blocked(c));
    SoundThen(c, a, b, s, m, e);
  }

  /** ordered answers its whole group, and returns true exactly when some message was not acked. */
  lemma {:induction false} OrderedSound(c: Ctx, group: seq<nat>, known: Option<Error>, failed: bool, s: State)
    requires InRange(c, group) && Ascending(group) && OneKey(c, group)
    requires |s.results| == |c.msgs| && Untouched(s, group) && JustFailed(c, group, known, s)
    ensures var (e, bad) := Ordered(c, group, known, failed, s);
      Sound(c, group, s, e) && (bad <==> failed || !AllAcked(group, e.results))
    decreases |group|, s.budget, if known.None? then 1 else 0
  {
    var (e, bad) := Ordered(c, group, known, failed, s);
    if known.Some? {
      if |group| == 1 {
        assert group == [group[0]];
        assert Explains(c, e.trace[|e.trace| - 1], group[0], e.results[group[0]], e.budget);
        NonAckWrite(c, group, s, i => Nak(known.value));
        assert group[0] in group;
      } else {
        OrderedHalves(c, group, known.value, failed, s);
      }
    } else if group == [] {
      NothingSound(c, s);
    } else {
      OrderedAttempt(c, group, failed, s);
    }
  }

  lemma AllAckedSplit(a: seq<nat>, b: seq<nat>, results: seq<Result>)
    ensures AllAcked(a + b, results) <==> AllAcked(a, results) && AllAcked(b, results)
  {
    assert forall i :: i in a + b <==> i in a || i in b;
  }

  lemma AllAckedStays(c: Ctx, a: seq<nat>, s: State, m: State, b: seq<nat>, e: State)
    requires Kept(c, a, s, m) && Kept(c, b, m, e)
    ensures AllAcked(a, m.results) <==> AllAcked(a, e.results)
  {
    WritesGrow(c, a, s, m);
    WritesGrow(c, b, m, e);
  }

  lemma HalfGroups(c: Ctx, group: seq<nat>, middle: nat)
    requires InRange(c, group) && Ascending(group) && OneKey(c, group) && middle <= |group|
    ensures InRange(c, group[..middle]) && Ascending(group[..middle]) && OneKey(c, group[..middle])
    ensures InRange(c, group[middle..]) && Ascending(group[middle..]) && OneKey(c, group[middle..])
    ensures group == group[..middle] + group[middle..]
    ensures forall i :: i in group[..middle] || i in group[middle..] ==> i in group
    ensures forall i :: i in group[middle..] ==> i !in group[..middle]
  {
    var a, b := group[..middle], group[middle..];
    forall i | i in b ensures i !in a {
      var q := IndexOf(b, i);
      assert group[middle + q] == i;
    }
  }

  lemma {:induction false} OrderedHalves(c: Ctx, group: seq<nat>, err: Error, failed: bool, s: State)
    requires InRange(c, group) && Ascending(group) && OneKey(c, group) && |group| > 1
    requires |s.results| == |c.msgs| && Untouched(s, group)
    ensures var (e, bad) := Ordered(c, group, Some(err), failed, s);
      Sound(c, group, s, e) && (bad <==> failed || !AllAcked(group, e.results))
    decreases |group|, s.budget, 0, 0
  {
    hide Kept, Logged, Claimed, Justified, Explains, Attempt, AllAcked, OneKey, Ascending, InRange;
    var middle := |group| / 2;
    var a, b := group[..middle], group[middle..];
    HalfGroups(c, group, middle);
    var (half, prefixFailed) := Ordered(c, a, None, false, s);
    OrderedSound(c, a, None, false, s);
    WritesGrow(c, a, s, half);
    if prefixFailed {
      HoldTail(c, a, b, s, half);
      TailBlocked(c, half, b);
      AllAckedSplit(a, b, Block(c, half, b).results);
    } else {
      var e := Ordered(c, b, None, false, half).0;
      OrderedSound(c, b, None, false, half);
      SoundThen(c, a, b, s, half, e);
      AllAckedStays(c, a, s, half, b, e);
      AllAckedSplit(a, b, e.results);
    }
  }

  lemma TailBlocked(c: Ctx, s: State, b: seq<nat>)
    requires b != [] && InRange(c, b) && |s.results| == |c.msgs|
    ensures !AllAcked(b, Block(c, s, b).results)
  {
    assert b[0] in b;
  }

  lemma {:induction false} OrderedAttempt(c: Ctx, group: seq<nat>, failed: bool, s: State)
    requires InRange(c, group) && Ascending(group) && OneKey(c, group) && group != []
    requires |s.results| == |c.msgs| && Untouched(s, group)
    ensures var (e, bad) := Ordered(c, group, None, failed, s);
      Sound(c, group, s, e) && (bad <==> failed || !AllAcked(group, e.results))
    decreases |group|, s.budget, 1, 1
  {
    hide Sound, Attempt, Silent, OneKey, Keep;
    AttemptKeeps(c, group, s);
    match Attempt(c, group, s).1
    case Committed(verdicts) =>
      CommitSound(c, group, s);
    case RolledBack(Violation(blocked)) =>
      OrderedViolation(c, group, s, failed);
    case RolledBack(Fault(err)) =>
      OrderedFault(c, group, err, failed, s);
  }

  lemma {:induction false} OrderedFault(c: Ctx, group: seq<nat>, err: Error, failed: bool, s: State)
    requires InRange(c, group) && Ascending(group) && OneKey(c, group) && group != []
    requires |s.results| == |c.msgs| && Untouched(s, group) && Attempt(c, group, s).1 == RolledBack(Fault(err))
    ensures var (e, bad) := Ordered(c, group, None, failed, s);
      Sound(c, group, s, e) && (bad <==> failed || !AllAcked(group, e.results))
    decreases |group|, s.budget, 1, 0
  {
    hide Kept, Logged, Claimed, Justified, Explains, Attempt;
    var next := Attempt(c, group, s).0;
    var e := Ordered(c, group, None, failed, s).0;
    AttemptKeeps(c, group, s);
    RolledBackIsSilent(c, group, s);
    if !c.transient(err) {
      OrderedSound(c, group, Some(err), failed, next);
      SilentThen(c, group, s, next, e);
    } else if next.budget > 0 {
      OrderedSound(c, group, None, failed, Spend(next));
      SilentThen(c, group, s, Spend(next), e);
    } else {
      FaultSound(c, group, s);
      assert group[0] in group;
    }
  }

  lemma {:induction false} OrderedViolation(c: Ctx, group: seq<nat>, s: State, failed: bool)
    requires InRange(c, group) && Ascending(group) && OneKey(c, group) && group != []
    requires |s.results| == |c.msgs| && Untouched(s, group)
    requires var outcome := Attempt(c, group, s).1; outcome.RolledBack? && outcome.failure.Violation?
    ensures var (e, bad) := Ordered(c, group, None, failed, s);
      Sound(c, group, s, e) && bad && !AllAcked(group, e.results)
    decreases |group|, s.budget, 0, 1
  {
    hide Kept, Logged, Claimed, Justified, Explains, Attempt;
    var (next, outcome) := Attempt(c, group, s);
    var blocked := outcome.failure.blocked;
    var kept := Keep(group, blocked);
    var held := Block(c, next, blocked);
    var e := Ordered(c, group, None, failed, s).0;
    ViolationBlocks(c, group, s);
    BlockSound(c, group, s);
    BlockedInRange(c, group, s);
    KeepFacts(c, group, blocked);
    WritesGrow(c, blocked, s, held);
    OrderedSound(c, kept, None, true, held);
    WritesGrow(c, kept, held, e);
    SoundThen(c, blocked, kept, s, held, e);
    SameMembers(blocked + kept, group);
    SoundPermuted(c, blocked + kept, group, s, e);
    assert blocked[0] in blocked && blocked[0] in held.writes;
    assert !Acked(e.results[blocked[0]]);
  }

  lemma KeepFacts(c: Ctx, group: seq<nat>, blocked: seq<nat>)
    requires InRange(c, group) && Ascending(group) && OneKey(c, group)
    requires NoRepeat(blocked) && (exists i :: i in blocked && i in group) && forall i :: i in blocked ==> i in group
    ensures var kept := Keep(group, blocked);
      && InRange(c, kept) && Ascending(kept) && OneKey(c, kept) && |kept| < |group|
      && (forall i :: i in kept <==> i in group && i !in blocked)
      && NoRepeat(blocked + kept)
      && (forall i :: i in blocked + kept <==> i in group)
  {
    var kept := Keep(group, blocked);
    KeepAscends(group, blocked);
    KeepInRange(c, group, blocked);
    forall i ensures i in kept <==> i in group && i !in blocked {
      if i in kept { assert i >= 0; }
      if i in group { assert i >= 0; }
      if i in kept || i in group {
        KeepMember(group, blocked, i);
      }
    }
    forall p, q | 0 <= p < q < |kept| ensures c.OrderKey(kept[p]) == c.OrderKey(kept[q]) {
      assert kept[p] in group && kept[q] in group;
      OneKeyPair(c, group, kept[p], kept[q]);
    }
    assert forall p :: 0 <= p < |blocked| ==> blocked[p] in blocked;
    assert forall p :: 0 <= p < |kept| ==> kept[p] in kept;
  }

  lemma OneKeyPair(c: Ctx, group: seq<nat>, i: nat, j: nat)
    requires InRange(c, group) && OneKey(c, group) && i in group && j in group
    ensures c.OrderKey(i) == c.OrderKey(j)
  {
    var p := IndexOf(group, i);
    var q := IndexOf(group, j);
    if p < q {
      assert c.OrderKey(group[p]) == c.OrderKey(group[q]);
    } else if q < p {
      assert c.OrderKey(group[q]) == c.OrderKey(group[p]);
    }
  }

  lemma {:induction false} BisectGroupsSound(c: Ctx, groups: seq<seq<nat>>, s: State)
    requires ValidGroups(c, groups) && |s.results| == |c.msgs| && Untouched(s, Flat(groups))
    ensures Sound(c, Flat(groups), s, BisectGroups(c, groups, s))
    decreases |Flat(groups)|, s.budget
  {
    hide Kept, Logged, Claimed, Justified, Explains, Attempt;
    SubsetOfValid(c, groups);
    FlatOfValid(c, groups);
    SortSorts(Flat(groups));
    var subset := Sort(Flat(groups));
    var e := BisectGroups(c, groups, s);
    if subset == [] {
      assert |Flat(groups)| == 0;
      NothingSound(c, s);
    } else {
      var (next, outcome) := Attempt(c, subset, s);
      AttemptKeeps(c, subset, s);
      match outcome
      case Committed(verdicts) =>
        CommitSound(c, subset, s);
        SoundPermuted(c, subset, Flat(groups), s, e);
      case RolledBack(Violation(blocked)) =>
        GroupsViolation(c, groups, s);
      case RolledBack(Fault(err)) =>
        RolledBackIsSilent(c, subset, s);
        if c.transient(err) && next.budget > 0 {
          BisectGroupsSound(c, groups, Spend(next));
          SilentThen(c, Flat(groups), s, Spend(next), e);
        } else if c.transient(err) {
          FaultSound(c, subset, s);
          SoundPermuted(c, subset, Flat(groups), s, e);
        } else if |groups| == 1 {
          OneGroup(c, groups);
          OrderedSound(c, groups[0], Some(err), false, next);
          SilentThen(c, groups[0], s, next, e);
        } else {
          GroupHalves(c, groups, next);
          SilentThen(c, Flat(groups), s, next, e);
        }
    }
  }

  lemma OneGroup(c: Ctx, groups: seq<seq<nat>>)
    requires ValidGroups(c, groups) && |groups| == 1
    ensures Flat(groups) == groups[0] && Sort(Flat(groups)) == groups[0] && OneKey(c, groups[0])
  {
    assert Flat(groups) == groups[0] + Flat(groups[1..]);
    SubsetOfValid(c, groups);
    AscendingUnique(Sort(Flat(groups)), groups[0]);
  }

  lemma TailMembers(s: seq<nat>)
    requires s != [] && Ascending(s)
    ensures forall i :: i in s[1..] <==> i in s && i != s[0]
  {
    assert s == [s[0]] + s[1..];
  }

  /** Ascending sequences with the same members are equal. */
  lemma {:induction false} AscendingUnique(a: seq<nat>, b: seq<nat>)
    requires Ascending(a) && Ascending(b) && forall i :: i in a <==> i in b
    ensures a == b
  {
    if a != [] {
      assert a[0] in b;
    }
    if b != [] {
      assert b[0] in a;
    }
    if a != [] {
      assert a[0] == b[0];
      TailMembers(a);
      TailMembers(b);
      AscendingUnique(a[1..], b[1..]);
    }
  }

  /** The groups of a batch hold each of its messages once. */
  lemma WholeBatch(c: Ctx)
    ensures ValidGroups(c, GroupsOf(c, |c.msgs|))
    ensures Sort(Flat(GroupsOf(c, |c.msgs|))) == All(|c.msgs|)
    ensures |Flat(GroupsOf(c, |c.msgs|))| == |c.msgs|
    ensures NoRepeat(Flat(GroupsOf(c, |c.msgs|)))
    ensures forall i: nat :: i in Flat(GroupsOf(c, |c.msgs|)) <==> i < |c.msgs|
  {
    var groups := GroupsOf(c, |c.msgs|);
    GroupsOfValid(c, |c.msgs|);
    SubsetOfValid(c, groups);
    FlatOfValid(c, groups);
    AllMember(|c.msgs|);
    AscendingUnique(Sort(Flat(groups)), All(|c.msgs|));
  }

  lemma {:induction false} GroupHalves(c: Ctx, groups: seq<seq<nat>>, s: State)
    requires ValidGroups(c, groups) && |groups| > 1 && |s.results| == |c.msgs| && Untouched(s, Flat(groups))
    ensures var middle := |groups| / 2;
      ValidGroups(c, groups[..middle]) && ValidGroups(c, groups[middle..])
      && Sound(c, Flat(groups), s, BisectGroups(c, groups[middle..], BisectGroups(c, groups[..middle], s)))
    decreases |Flat(groups)|, s.budget, 0
  {
    var middle := |groups| / 2;
    var a, b := groups[..middle], groups[middle..];
    HalvesShrink(c, groups, middle);
    assert groups == a + b;
    FlatConcat(a, b);
    FlatOfValid(c, groups);
    BisectGroupsSound(c, a, s);
    var half := BisectGroups(c, a, s);
    WritesGrow(c, Flat(a), s, half);
    assert Untouched(half, Flat(b)) by {
      forall i | i in Flat(b) ensures i !in half.writes {
        DisjointHalves(Flat(a), Flat(b), i);
      }
    }
    BisectGroupsSound(c, b, half);
    SoundThen(c, Flat(a), Flat(b), s, half, BisectGroups(c, b, half));
  }

  lemma DisjointHalves(a: seq<nat>, b: seq<nat>, i: nat)
    requires NoRepeat(a + b) && i in b
    ensures i !in a
  {
    var q := IndexOf(b, i);
    forall p | 0 <= p < |a| ensures a[p] != i {
      assert (a + b)[p] != (a + b)[|a| + q];
    }
  }

  lemma {:induction false} GroupsViolation(c: Ctx, groups: seq<seq<nat>>, s: State)
    requires ValidGroups(c, groups) && |s.results| == |c.msgs| && Untouched(s, Flat(groups)) && Flat(groups) != []
    requires InRange(c, Sort(Flat(groups)))
    requires var outcome := Attempt(c, Sort(Flat(groups)), s).1; outcome.RolledBack? && outcome.failure.Violation?
    ensures Sound(c, Flat(groups), s, BisectGroups(c, groups, s))
    decreases |Flat(groups)|, s.budget, 0
  {
    SubsetOfValid(c, groups);
    FlatOfValid(c, groups);
    var subset := Sort(Flat(groups));
    var (next, outcome) := Attempt(c, subset, s);
    AttemptKeeps(c, subset, s);
    var blocked := outcome.failure.blocked;
    var rest := WithoutIndexes(groups, blocked);
    var held := Block(c, next, blocked);
    var e := BisectGroups(c, groups, s);
    ViolationBlocks(c, subset, s);
    BlockSound(c, subset, s);
    BlockedInRange(c, subset, s);
    BlockedShrinks(c, groups, blocked);
    FlatOfValid(c, rest);
    WithoutMembers(groups, blocked);
    WritesGrow(c, blocked, s, held);
    BisectGroupsSound(c, rest, held);
    SoundThen(c, blocked, Flat(rest), s, held, e);
    SplitMembers(blocked, Flat(rest), Flat(groups));
    SoundPermuted(c, blocked + Flat(rest), Flat(groups), s, e);
  }

  lemma WithoutMembers(groups: seq<seq<nat>>, removed: seq<nat>)
    ensures forall i :: i in Flat(WithoutIndexes(groups, removed)) <==> i in Flat(groups) && i !in removed
  {
    forall i: nat ensures i in Flat(WithoutIndexes(groups, removed)) <==> i in Flat(groups) && i !in removed {
      WithoutMember(groups, removed, i);
    }
  }

  lemma SplitMembers(a: seq<nat>, b: seq<nat>, whole: seq<nat>)
    requires NoRepeat(a) && NoRepeat(b) && NoRepeat(whole)
    requires forall i :: i in a ==> i in whole
    requires forall i :: i in b <==> i in whole && i !in a
    ensures multiset(a + b) == multiset(whole)
  {
    assert forall p :: 0 <= p < |a| ==> a[p] in a;
    assert forall p :: 0 <= p < |b| ==> b[p] in b;
    assert NoRepeat(a + b);
    SameMembers(a + b, whole);
  }
}
