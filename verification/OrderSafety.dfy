/** Order safety against every handler: a fresh message commits as ack only behind acked messages of its order key. */
module OrderSafety {
  import opened BatchTypes
  import opened Attempts
  import opened Groups
  import opened AttemptFacts
  import opened Bisection
  import opened Progress
  import opened Soundness

  /** No earlier message of the batch has the deduplication key of j, or repeats do not matter: a handler
      without verdicts never acks some messages only. */
  ghost predicate Leads(c: Ctx, j: nat)
    requires j < |c.msgs|
  {
    !c.dedup || !c.perMessage || forall i :: 0 <= i < j ==> c.Key(i) != c.Key(j)
  }

  /** Every committed effect of idxs that leads its key follows only acked messages of its order key in idxs. */
  ghost predicate InOrder(c: Ctx, idxs: seq<nat>, s: State, e: State)
    requires InRange(c, idxs) && s.log <= e.log && |e.results| == |c.msgs|
  {
    forall i, j :: j in NewLog(s, e) && j < |c.msgs| && Leads(c, j) && i in idxs && i < j && c.OrderKey(i) == c.OrderKey(j)
      ==> Acked(e.results[i])
  }

  ghost predicate Safe(c: Ctx, idxs: seq<nat>, s: State, e: State) {
    Sound(c, idxs, s, e) && InOrder(c, idxs, s, e)
  }

  lemma SilentSafe(c: Ctx, idxs: seq<nat>, s: State, m: State, e: State)
    requires Silent(s, m) && Safe(c, idxs, m, e)
    ensures Safe(c, idxs, s, e)
  {
    SilentThen(c, idxs, s, m, e);
    assert NewLog(s, e) == NewLog(m, e);
  }

  /** A call that commits nothing is in order. */
  lemma QuietInOrder(c: Ctx, idxs: seq<nat>, s: State, e: State)
    requires Sound(c, idxs, s, e) && e.log == s.log
    ensures Safe(c, idxs, s, e)
  {
    assert NewLog(s, e) == [];
  }

  lemma CommitInOrder(c: Ctx, subset: seq<nat>, s: State)
    requires InRange(c, subset) && Ascending(subset) && |s.results| == |c.msgs| && c.ordered
    requires Untouched(s, subset) && Attempt(c, subset, s).1.Committed?
    ensures var (next, outcome) := Attempt(c, subset, s);
      Safe(c, subset, s, Record(next, subset, outcome.verdicts))
  {
    hide Logged, Claimed, Justified, Explains;
    CommitSound(c, subset, s);
    var (next, outcome) := Attempt(c, subset, s);
    var e := Record(next, subset, outcome.verdicts);
    assert NewLog(s, e) == AckedOf(Fresh(c, subset, Seen(c, s)), outcome.verdicts);
    hide Attempt;
    forall i, j | j in NewLog(s, e) && j < |c.msgs| && i in subset && i < j && c.OrderKey(i) == c.OrderKey(j)
      ensures Acked(e.results[i])
    {
      CommitKeepsOrder(c, subset, s, i, j);
    }
  }

  /** Every message of a that shares its order key with a later message of b was acked, or that
      message was already claimed when b began. */
  ghost predicate Guarded(c: Ctx, a: seq<nat>, b: seq<nat>, m: State)
    requires InRange(c, a) && InRange(c, b) && |m.results| == |c.msgs|
  {
    forall i, j :: i in a && j in b && i < j && c.OrderKey(i) == c.OrderKey(j) && Leads(c, j)
      ==> Acked(m.results[i]) || (c.dedup && c.Key(j) in m.processed)
  }

  /** No message of b precedes one of a in its order key. */
  ghost predicate NotBehind(c: Ctx, a: seq<nat>, b: seq<nat>)
    requires InRange(c, a) && InRange(c, b)
  {
    forall i, j :: i in b && j in a && i < j ==> c.OrderKey(i) != c.OrderKey(j)
  }

  /** j is committed by the first of two runs. */
  lemma SafeFirst(c: Ctx, a: seq<nat>, b: seq<nat>, s: State, m: State, e: State, i: nat, j: nat)
    requires Safe(c, a, s, m) && Kept(c, b, m, e)
    requires NotBehind(c, a, b) || m.log == s.log
    requires j in NewLog(s, m) && j < |c.msgs| && Leads(c, j) && i in a + b && i < j && c.OrderKey(i) == c.OrderKey(j)
    ensures Acked(e.results[i])
  {
    hide Leads, Claimed, Justified;
    assert j in a && i in a;
    WritesGrow(c, a, s, m);
  }

  /** j is committed by the second of two runs. */
  lemma SafeSecond(c: Ctx, a: seq<nat>, b: seq<nat>, s: State, m: State, e: State, i: nat, j: nat)
    requires Kept(c, a, s, m) && Safe(c, b, m, e) && Guarded(c, a, b, m)
    requires j in NewLog(m, e) && j < |c.msgs| && Leads(c, j) && i in a + b && i < j && c.OrderKey(i) == c.OrderKey(j)
    ensures Acked(e.results[i])
  {
    hide Leads, Claimed, Justified;
    assert j in b;
    WritesGrow(c, a, s, m);
  }

  /** Two runs in sequence keep the order when the first guards the second. */
  lemma SafeThen(c: Ctx, a: seq<nat>, b: seq<nat>, s: State, m: State, e: State)
    requires Safe(c, a, s, m) && Safe(c, b, m, e)
    requires Guarded(c, a, b, m)
    requires NotBehind(c, a, b) || m.log == s.log
    ensures Safe(c, a + b, s, e)
  {
    hide Leads, Guarded, NotBehind, Logged, Claimed, Justified;
    SoundThen(c, a, b, s, m, e);
    assert NewLog(s, e) == NewLog(s, m) + NewLog(m, e);
    forall i, j | j in NewLog(s, e) && j < |c.msgs| && Leads(c, j) && i in a + b && i < j && c.OrderKey(i) == c.OrderKey(j)
      ensures Acked(e.results[i])
    {
      if j in NewLog(s, m) {
        SafeFirst(c, a, b, s, m, e, i, j);
      } else {
        SafeSecond(c, a, b, s, m, e, i, j);
      }
    }
  }

  /** What a violation blocks guards what it leaves. */
  lemma ViolationGuards(c: Ctx, subset: seq<nat>, s: State, rest: seq<nat>)
    requires InRange(c, subset) && Ascending(subset) && |s.results| == |c.msgs|
    requires var outcome := Attempt(c, subset, s).1; outcome.RolledBack? && outcome.failure.Violation?
    requires InRange(c, rest)
    requires forall i :: i in rest <==> i in subset && i !in Attempt(c, subset, s).1.failure.blocked
    ensures var (next, outcome) := Attempt(c, subset, s);
      InRange(c, outcome.failure.blocked) &&
      Guarded(c, outcome.failure.blocked, rest, Block(c, next, outcome.failure.blocked))
  {
    AttemptKeeps(c, subset, s);
    BlockedInRange(c, subset, s);
    var (next, outcome) := Attempt(c, subset, s);
    var blocked := outcome.failure.blocked;
    hide Attempt;
    var held := Block(c, next, blocked);
    forall i, j | i in blocked && j in rest && i < j && c.OrderKey(i) == c.OrderKey(j) && Leads(c, j)
      ensures c.dedup && c.Key(j) in held.processed
    {
      UnfreshIsClaimed(c, subset, s, i, j);
    }
  }

  lemma UnfreshIsClaimed(c: Ctx, subset: seq<nat>, s: State, i: nat, j: nat)
    requires InRange(c, subset) && Ascending(subset)
    requires var outcome := Attempt(c, subset, s).1;
      outcome.RolledBack? && outcome.failure.Violation? && i in outcome.failure.blocked && j !in outcome.failure.blocked
    requires i < j && j in subset && c.OrderKey(i) == c.OrderKey(j) && Leads(c, j)
    ensures c.dedup && c.Key(j) in Seen(c, s)
  {
    hide Attempt, Fresh;
    ViolationBlocks(c, subset, s);
    if j in Fresh(c, subset, Seen(c, s)) {
      BlockedTail(c, subset, s, i, j);
    }
    FreshAscends(c, subset, Seen(c, s));
    NotFresh(c, subset, Seen(c, s), j);
  }

  lemma {:induction false} OrderedSafe(c: Ctx, group: seq<nat>, known: Option<Error>, failed: bool, s: State)
    requires InRange(c, group) && Ascending(group) && OneKey(c, group) && c.ordered
    requires |s.results| == |c.msgs| && Untouched(s, group) && JustFailed(c, group, known, s)
    ensures Safe(c, group, s, Ordered(c, group, known, failed, s).0)
    decreases |group|, s.budget, if known.None? then 1 else 0
  {
    hide Kept, Logged, Claimed, Justified, Explains, Attempt, InOrder;
    var e := Ordered(c, group, known, failed, s).0;
    OrderedSound(c, group, known, failed, s);
    if known.Some? {
      if |group| == 1 {
        QuietInOrder(c, group, s, e);
      } else {
        OrderedHalvesSafe(c, group, known.value, failed, s);
      }
    } else if group == [] {
      QuietInOrder(c, group, s, e);
    } else {
      var (next, outcome) := Attempt(c, group, s);
      AttemptKeeps(c, group, s);
      match outcome
      case Committed(verdicts) =>
        CommitInOrder(c, group, s);
      case RolledBack(Violation(blocked)) =>
        OrderedViolationSafe(c, group, failed, s);
      case RolledBack(Fault(err)) =>
        RolledBackIsSilent(c, group, s);
        if c.transient(err) && next.budget > 0 {
          OrderedSafe(c, group, None, failed, Spend(next));
          SilentSafe(c, group, s, Spend(next), e);
        } else if c.transient(err) {
          QuietInOrder(c, group, s, e);
        } else {
          OrderedSafe(c, group, Some(err), failed, next);
          SilentSafe(c, group, s, next, e);
        }
    }
  }

  lemma HalvesNotBehind(c: Ctx, a: seq<nat>, b: seq<nat>)
    requires InRange(c, a + b) && Ascending(a + b)
    ensures InRange(c, a) && InRange(c, b) && NotBehind(c, a, b)
  {
    assert forall p :: 0 <= p < |a| ==> a[p] == (a + b)[p];
    assert forall q :: 0 <= q < |b| ==> b[q] == (a + b)[|a| + q];
  }

  lemma {:induction false} OrderedHalvesSafe(c: Ctx, group: seq<nat>, err: Error, failed: bool, s: State)
    requires InRange(c, group) && Ascending(group) && OneKey(c, group) && c.ordered && |group| > 1
    requires |s.results| == |c.msgs| && Untouched(s, group)
    ensures Safe(c, group, s, Ordered(c, group, Some(err), failed, s).0)
    decreases |group|, s.budget, 0, 0
  {
    hide Kept, Logged, Claimed, Justified, Explains, Attempt, InOrder, OneKey, Ascending, InRange;
    var middle := |group| / 2;
    var a, b := group[..middle], group[middle..];
    HalfGroups(c, group, middle);
    HalvesNotBehind(c, a, b);
    var (half, prefixFailed) := Ordered(c, a, None, false, s);
    OrderedSound(c, a, None, false, s);
    OrderedSafe(c, a, None, false, s);
    WritesGrow(c, a, s, half);
    if prefixFailed {
      SafeTail(c, a, b, s, half);
    } else {
      OrderedSound(c, b, None, false, half);
      OrderedSafe(c, b, None, false, half);
      SafeThen(c, a, b, s, half, Ordered(c, b, None, false, half).0);
    }
  }

  lemma SafeTail(c: Ctx, a: seq<nat>, b: seq<nat>, s: State, m: State)
    requires Safe(c, a, s, m) && !AllAcked(a, m.results)
    requires InRange(c, a + b) && Ascending(a + b) && OneKey(c, a + b) && Untouched(s, b)
    ensures Safe(c, a + b, s, Block(c, m, b))
  {
    hide Logged, Claimed, Justified, Explains;
    HoldTail(c, a, b, s, m);
    HalvesNotBehind(c, a, b);
    WritesGrow(c, a, s, m);
    var e := Block(c, m, b);
    assert NewLog(s, e) == NewLog(s, m);
    LogInside(c, a, s, m);
    forall i, j | j in NewLog(s, e) && j < |c.msgs| && Leads(c, j) && i in a + b && i < j && c.OrderKey(i) == c.OrderKey(j)
      ensures Acked(e.results[i])
    {
      assert j in a;
      assert i !in b;
    }
  }

  lemma LogInside(c: Ctx, idxs: seq<nat>, s: State, e: State)
    requires Sound(c, idxs, s, e)
    ensures s.log <= e.log && forall i :: i in NewLog(s, e) ==> i in idxs
  {
  }

  lemma {:induction false} OrderedViolationSafe(c: Ctx, group: seq<nat>, failed: bool, s: State)
    requires InRange(c, group) && Ascending(group) && OneKey(c, group) && group != [] && c.ordered
    requires |s.results| == |c.msgs| && Untouched(s, group)
    requires var outcome := Attempt(c, group, s).1; outcome.RolledBack? && outcome.failure.Violation?
    ensures Safe(c, group, s, Ordered(c, group, None, failed, s).0)
    decreases |group|, s.budget, 0, 1
  {
    hide Kept, Logged, Claimed, Justified, Explains, Attempt, InOrder, OneKey;
    var (next, outcome) := Attempt(c, group, s);
    var blocked := outcome.failure.blocked;
    var kept := Keep(group, blocked);
    var held := Block(c, next, blocked);
    var e := Ordered(c, group, None, failed, s).0;
    ViolationBlocks(c, group, s);
    AttemptKeeps(c, group, s);
    BlockSound(c, group, s);
    QuietInOrder(c, blocked, s, held);
    BlockedInRange(c, group, s);
    KeepFacts(c, group, blocked);
    WritesGrow(c, blocked, s, held);
    OrderedSafe(c, kept, None, true, held);
    ViolationGuards(c, group, s, kept);
    SafeThen(c, blocked, kept, s, held, e);
    SameMembers(blocked + kept, group);
    SafePermuted(c, blocked + kept, group, s, e);
  }

  lemma SafePermuted(c: Ctx, a: seq<nat>, b: seq<nat>, s: State, e: State)
    requires Safe(c, a, s, e) && multiset(a) == multiset(b) && NoRepeat(b)
    ensures Safe(c, b, s, e)
  {
    SoundPermuted(c, a, b, s, e);
    forall i | i in b ensures i in a {
      assert i in multiset(b);
    }
  }

  lemma {:induction false} BisectGroupsSafe(c: Ctx, groups: seq<seq<nat>>, s: State)
    requires ValidGroups(c, groups) && |s.results| == |c.msgs| && Untouched(s, Flat(groups)) && c.ordered
    ensures Safe(c, Flat(groups), s, BisectGroups(c, groups, s))
    decreases |Flat(groups)|, s.budget
  {
    hide Kept, Logged, Claimed, Justified, Explains, Attempt, InOrder;
    SubsetOfValid(c, groups);
    FlatOfValid(c, groups);
    SortSorts(Flat(groups));
    BisectGroupsSound(c, groups, s);
    var subset := Sort(Flat(groups));
    var e := BisectGroups(c, groups, s);
    if subset == [] {
      QuietInOrder(c, Flat(groups), s, e);
    } else {
      var (next, outcome) := Attempt(c, subset, s);
      AttemptKeeps(c, subset, s);
      match outcome
      case Committed(verdicts) =>
        CommitInOrder(c, subset, s);
        SafePermuted(c, subset, Flat(groups), s, e);
      case RolledBack(Violation(blocked)) =>
        GroupsViolationSafe(c, groups, s);
      case RolledBack(Fault(err)) =>
        GroupsFaultSafe(c, groups, s);
    }
  }

  lemma {:induction false} GroupsFaultSafe(c: Ctx, groups: seq<seq<nat>>, s: State)
    requires ValidGroups(c, groups) && |s.results| == |c.msgs| && Untouched(s, Flat(groups)) && Flat(groups) != []
    requires InRange(c, Sort(Flat(groups))) && Ascending(Sort(Flat(groups))) && Sort(Flat(groups)) != [] && c.ordered
    requires var outcome := Attempt(c, Sort(Flat(groups)), s).1; outcome.RolledBack? && outcome.failure.Fault?
    ensures Safe(c, Flat(groups), s, BisectGroups(c, groups, s))
    decreases |Flat(groups)|, s.budget, 1
  {
    hide Kept, Logged, Claimed, Justified, Explains, Attempt, InOrder, InRange, Ascending;
    BisectGroupsSound(c, groups, s);
    var subset := Sort(Flat(groups));
    var e := BisectGroups(c, groups, s);
    var (next, outcome) := Attempt(c, subset, s);
    AttemptKeeps(c, subset, s);
    var err := outcome.failure.err;
    RolledBackIsSilent(c, subset, s);
    if c.transient(err) && next.budget > 0 {
      BisectGroupsSafe(c, groups, Spend(next));
      SilentSafe(c, Flat(groups), s, Spend(next), e);
    } else if c.transient(err) {
      QuietInOrder(c, Flat(groups), s, e);
    } else if |groups| == 1 {
      OneGroup(c, groups);
      OrderedSafe(c, groups[0], Some(err), false, next);
      SilentSafe(c, groups[0], s, next, e);
    } else {
      GroupHalvesSafe(c, groups, next);
      SilentSafe(c, Flat(groups), s, next, e);
    }
  }

  /** Messages of different groups never share an order key. */
  lemma KeysApart(c: Ctx, groups: seq<seq<nat>>, middle: nat)
    requires ValidGroups(c, groups) && middle <= |groups|
    requires ValidGroups(c, groups[..middle]) && ValidGroups(c, groups[middle..])
    ensures InRange(c, Flat(groups[..middle])) && InRange(c, Flat(groups[middle..]))
    ensures forall i, j :: i in Flat(groups[..middle]) && j in Flat(groups[middle..]) ==> c.OrderKey(i) != c.OrderKey(j)
  {
    var a, b := groups[..middle], groups[middle..];
    FlatOfValid(c, a);
    FlatOfValid(c, b);
    forall i, j | i in Flat(a) && j in Flat(b) ensures c.OrderKey(i) != c.OrderKey(j) {
      FlatHead(c, a, i);
      FlatHead(c, b, j);
      var p :| 0 <= p < |a| && c.OrderKey(i) == Head(c, a[p]);
      var q :| 0 <= q < |b| && c.OrderKey(j) == Head(c, b[q]);
      assert a[p] == groups[p] && b[q] == groups[middle + q];
    }
  }

  lemma {:induction false} GroupHalvesSafe(c: Ctx, groups: seq<seq<nat>>, s: State)
    requires ValidGroups(c, groups) && |groups| > 1 && c.ordered
    requires |s.results| == |c.msgs| && Untouched(s, Flat(groups))
    ensures var middle := |groups| / 2;
      ValidGroups(c, groups[..middle]) && ValidGroups(c, groups[middle..])
      && Safe(c, Flat(groups), s, BisectGroups(c, groups[middle..], BisectGroups(c, groups[..middle], s)))
    decreases |Flat(groups)|, s.budget, 0
  {
    hide Kept, Logged, Claimed, Justified, Explains, Attempt, InOrder;
    var middle := |groups| / 2;
    var a, b := groups[..middle], groups[middle..];
    HalvesShrink(c, groups, middle);
    assert groups == a + b;
    FlatConcat(a, b);
    FlatOfValid(c, groups);
    KeysApart(c, groups, middle);
    BisectGroupsSafe(c, a, s);
    var half := BisectGroups(c, a, s);
    WritesGrow(c, Flat(a), s, half);
    assert Untouched(half, Flat(b)) by {
      forall i | i in Flat(b) ensures i !in half.writes {
        DisjointHalves(Flat(a), Flat(b), i);
      }
    }
    BisectGroupsSafe(c, b, half);
    SafeThen(c, Flat(a), Flat(b), s, half, BisectGroups(c, b, half));
  }

  lemma {:induction false} GroupsViolationSafe(c: Ctx, groups: seq<seq<nat>>, s: State)
    requires ValidGroups(c, groups) && |s.results| == |c.msgs| && Untouched(s, Flat(groups)) && Flat(groups) != []
    requires InRange(c, Sort(Flat(groups))) && c.ordered
    requires var outcome := Attempt(c, Sort(Flat(groups)), s).1; outcome.RolledBack? && outcome.failure.Violation?
    ensures Safe(c, Flat(groups), s, BisectGroups(c, groups, s))
    decreases |Flat(groups)|, s.budget, 0
  {
    hide Kept, Logged, Claimed, Justified, Explains, Attempt, InOrder;
    SubsetOfValid(c, groups);
    FlatOfValid(c, groups);
    var subset := Sort(Flat(groups));
    var (next, outcome) := Attempt(c, subset, s);
    AttemptKeeps(c, subset, s);
    var blocked := outcome.failure.blocked;
    var rest := WithoutIndexes(groups, blocked);
    var held := Block(c, next, blocked);
    var e := BisectGroups(c, groups, s);
    ViolationBlocks(c, subset, s);
    BlockSound(c, subset, s);
    QuietInOrder(c, blocked, s, held);
    BlockedInRange(c, subset, s);
    BlockedShrinks(c, groups, blocked);
    FlatOfValid(c, rest);
    WithoutMembers(groups, blocked);
    WritesGrow(c, blocked, s, held);
    BisectGroupsSafe(c, rest, held);
    ViolationGuards(c, subset, s, Flat(rest));
    SafeThen(c, blocked, Flat(rest), s, held, e);
    SplitMembers(blocked, Flat(rest), Flat(groups));
    SafePermuted(c, blocked + Flat(rest), Flat(groups), s, e);
  }
}
