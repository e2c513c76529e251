/** Exactly when a batch keeps the order of its order keys against every handler. */
module OrderCondition {
  import opened BatchTypes
  import opened Attempts
  import opened Groups
  import opened AttemptFacts
  import opened Bisection
  import opened Progress
  import opened Soundness
  import opened OrderSafety
  import opened BatchRuns

  /** h is the first message of the batch with its deduplication key, and opens its order key. */
  ghost predicate Opens(c: Ctx, h: nat)
    requires h < |c.msgs|
  {
    forall i :: 0 <= i < h ==> c.Key(i) != c.Key(h) && c.OrderKey(i) != c.OrderKey(h)
  }

  /** j repeats the message that opens its order key. */
  ghost predicate RepeatsHead(c: Ctx, h: nat, j: nat)
    requires j < |c.msgs|
  {
    h < j && Opens(c, h) && c.Key(h) == c.Key(j) && c.OrderKey(h) == c.OrderKey(j)
  }

  /** While j may still be attempted, so may the head it repeats, or the key they share is claimed. */
  ghost predicate Rooted(c: Ctx, idxs: seq<nat>, h: nat, j: nat, s: State)
    requires j < |c.msgs|
  {
    j in idxs ==> h in idxs || c.Key(j) in s.processed
  }

  /** The run from s to e did not commit j. */
  ghost predicate Spares(s: State, e: State, j: nat) {
    s.log <= e.log && j !in NewLog(s, e)
  }

  lemma SparesThen(s: State, m: State, e: State, j: nat)
    requires Spares(s, m, j) && Spares(m, e, j)
    ensures Spares(s, e, j)
  {
    assert NewLog(s, e) == NewLog(s, m) + NewLog(m, e);
  }

  /** A rooted repeat is not fresh. */
  lemma AttemptSpares(c: Ctx, subset: seq<nat>, h: nat, j: nat, s: State)
    requires InRange(c, subset) && Ascending(subset) && c.dedup && j < |c.msgs| && RepeatsHead(c, h, j)
    requires Rooted(c, subset, h, j, s)
    ensures Spares(s, Attempt(c, subset, s).0, j) && s.processed <= Attempt(c, subset, s).0.processed
  {
    var (next, outcome) := Attempt(c, subset, s);
    AttemptKeeps(c, subset, s);
    if outcome.Committed? {
      var indexes := Fresh(c, subset, Seen(c, s));
      if j in indexes {
        FreshIsUnclaimed(c, subset, Seen(c, s), j);
        FreshIsFirst(c, subset, Seen(c, s), j, h);
      }
      AckedOfMember(indexes, outcome.verdicts, j);
      assert NewLog(s, next) == AckedOf(indexes, outcome.verdicts);
    }
  }

  /** A blocked message follows another message of its order key in the attempt. */
  lemma BlockedFollows(c: Ctx, subset: seq<nat>, s: State, i: nat)
    requires InRange(c, subset) && Ascending(subset) && i < |c.msgs|
    requires var outcome := Attempt(c, subset, s).1;
      outcome.RolledBack? && outcome.failure.Violation? && i in outcome.failure.blocked
    ensures exists f :: f in subset && f < i && c.OrderKey(f) == c.OrderKey(i)
  {
    hide Fresh, ViolatedKey;
    var indexes := Fresh(c, subset, Seen(c, s));
    FreshAscends(c, subset, Seen(c, s));
    AscendsNoRepeat(indexes);
    var applied := RepliedWith(c, subset, s);
    assert i in OrderViolations(c, indexes, applied);
    var p := IndexOf(indexes, i);
    ViolationAt(c, indexes, applied, |indexes|, p);
    assert FailsBefore(c, indexes, applied, p);
    var f :| 0 <= f < p && c.OrderKey(indexes[f]) == c.OrderKey(indexes[p]) && !Acked(applied[f]);
    assert indexes[f] in subset;
  }

  lemma HeadIsNotBlocked(c: Ctx, subset: seq<nat>, s: State, h: nat)
    requires InRange(c, subset) && Ascending(subset) && h < |c.msgs| && Opens(c, h)
    requires var outcome := Attempt(c, subset, s).1; outcome.RolledBack? && outcome.failure.Violation?
    ensures h !in Attempt(c, subset, s).1.failure.blocked
  {
    hide Attempt;
    if h in Attempt(c, subset, s).1.failure.blocked {
      BlockedFollows(c, subset, s, h);
    }
  }

  /** An acked head holds its claim. */
  lemma AckedHeadIsClaimed(c: Ctx, idxs: seq<nat>, s: State, e: State, h: nat)
    requires Sound(c, idxs, s, e) && c.dedup && h in idxs && h < |c.msgs| && Opens(c, h) && Acked(e.results[h])
    ensures c.Key(h) in e.processed
  {
    hide Logged, Justified;
    assert !Repeats(c, h, e);
  }

  lemma WritesKeepLog(s: State, idxs: seq<nat>, value: nat -> Result)
    ensures Write(s, idxs, value).log == s.log && Write(s, idxs, value).processed == s.processed
  {
  }

  lemma {:induction false} OrderedSpares(c: Ctx, group: seq<nat>, known: Option<Error>, failed: bool, h: nat, j: nat, s: State)
    requires InRange(c, group) && Ascending(group) && OneKey(c, group)
    requires |s.results| == |c.msgs| && Untouched(s, group) && JustFailed(c, group, known, s)
    requires c.dedup && j < |c.msgs| && RepeatsHead(c, h, j) && Rooted(c, group, h, j, s)
    ensures Spares(s, Ordered(c, group, known, failed, s).0, j)
    decreases |group|, s.budget, if known.None? then 1 else 0
  {
    hide Kept, Logged, Claimed, Justified, Explains, Attempt, Write, Opens;
    var e := Ordered(c, group, known, failed, s).0;
    if known.Some? {
      WritesKeepLog(s, group, i => Nak(known.value));
      if |group| > 1 {
        OrderedHalvesSpare(c, group, known.value, failed, h, j, s);
      }
    } else if group != [] {
      var (next, outcome) := Attempt(c, group, s);
      AttemptKeeps(c, group, s);
      AttemptSpares(c, group, h, j, s);
      match outcome
      case Committed(verdicts) =>
        WritesKeepLog(next, group, i => if i in verdicts then verdicts[i] else Ack());
      case RolledBack(Violation(blocked)) =>
        OrderedViolationSpares(c, group, failed, h, j, s);
      case RolledBack(Fault(err)) =>
        RolledBackIsSilent(c, group, s);
        if c.transient(err) && next.budget > 0 {
          OrderedSpares(c, group, None, failed, h, j, Spend(next));
          SparesThen(s, Spend(next), e, j);
        } else if c.transient(err) {
          WritesKeepLog(next, group, i => TransientResult(c, err));
        } else {
          OrderedSpares(c, group, Some(err), failed, h, j, next);
          SparesThen(s, next, e, j);
        }
    }
  }

  lemma {:induction false} OrderedHalvesSpare(c: Ctx, group: seq<nat>, err: Error, failed: bool, h: nat, j: nat, s: State)
    requires InRange(c, group) && Ascending(group) && OneKey(c, group) && |group| > 1
    requires |s.results| == |c.msgs| && Untouched(s, group)
    requires c.dedup && j < |c.msgs| && RepeatsHead(c, h, j) && Rooted(c, group, h, j, s)
    ensures Spares(s, Ordered(c, group, Some(err), failed, s).0, j)
    decreases |group|, s.budget, 0, 0
  {
    hide Kept, Logged, Claimed, Justified, Explains, Attempt, Write, Opens, OneKey, Ascending, InRange;
    var middle := |group| / 2;
    var a, b := group[..middle], group[middle..];
    HalfGroups(c, group, middle);
    HalvesAscend(group, middle, h, j);
    var (half, prefixFailed) := Ordered(c, a, None, false, s);
    OrderedSound(c, a, None, false, s);
    OrderedSpares(c, a, None, false, h, j, s);
    WritesGrow(c, a, s, half);
    if prefixFailed {
      WritesKeepLog(half, b, i => Blocked(c));
    } else {
      if j in b && h in a {
        AckedHeadIsClaimed(c, a, s, half, h);
      }
      TableGrows(c, a, s, half);
      OrderedSpares(c, b, None, false, h, j, half);
      SparesThen(s, half, Ordered(c, b, None, false, half).0, j);
    }
  }

  lemma TableGrows(c: Ctx, idxs: seq<nat>, s: State, e: State)
    requires Sound(c, idxs, s, e)
    ensures s.processed <= e.processed
  {
  }

  lemma HalvesAscend(group: seq<nat>, middle: nat, h: nat, j: nat)
    requires Ascending(group) && middle <= |group| && h < j
    ensures h in group ==> h in group[..middle] || h in group[middle..]
    ensures j in group[..middle] && h in group ==> h in group[..middle]
  {
    var a, b := group[..middle], group[middle..];
    assert group == a + b;
    if j in a && h in group {
      var p := IndexOf(a, j);
      var q := IndexOf(group, h);
      assert group[p] == j;
      assert q < p;
      assert a[q] == h;
    }
  }

  lemma {:induction false} OrderedViolationSpares(c: Ctx, group: seq<nat>, failed: bool, h: nat, j: nat, s: State)
    requires InRange(c, group) && Ascending(group) && OneKey(c, group) && group != []
    requires |s.results| == |c.msgs| && Untouched(s, group)
    requires c.dedup && j < |c.msgs| && RepeatsHead(c, h, j) && Rooted(c, group, h, j, s)
    requires var outcome := Attempt(c, group, s).1; outcome.RolledBack? && outcome.failure.Violation?
    ensures Spares(s, Ordered(c, group, None, failed, s).0, j)
    decreases |group|, s.budget, 0, 1
  {
    hide Kept, Logged, Claimed, Justified, Explains, Attempt, OneKey, Opens;
    var (next, outcome) := Attempt(c, group, s);
    var blocked := outcome.failure.blocked;
    var kept := Keep(group, blocked);
    var held := Block(c, next, blocked);
    ViolationBlocks(c, group, s);
    AttemptKeeps(c, group, s);
    BlockSound(c, group, s);
    BlockedInRange(c, group, s);
    KeepFacts(c, group, blocked);
    WritesGrow(c, blocked, s, held);
    HeadIsNotBlocked(c, group, s, h);
    OrderedSpares(c, kept, None, true, h, j, held);
    assert Spares(s, held, j) by { assert NewLog(s, held) == []; }
    SparesThen(s, held, Ordered(c, group, None, failed, s).0, j);
  }

  lemma {:induction false} BisectGroupsSpares(c: Ctx, groups: seq<seq<nat>>, h: nat, j: nat, s: State)
    requires ValidGroups(c, groups) && |s.results| == |c.msgs| && Untouched(s, Flat(groups))
    requires c.dedup && j < |c.msgs| && RepeatsHead(c, h, j) && Rooted(c, Flat(groups), h, j, s)
    ensures Spares(s, BisectGroups(c, groups, s), j)
    decreases |Flat(groups)|, s.budget
  {
    hide Kept, Logged, Claimed, Justified, Explains, Attempt, Write, Opens;
    SubsetOfValid(c, groups);
    var subset := Sort(Flat(groups));
    var e := BisectGroups(c, groups, s);
    if subset != [] {
      var (next, outcome) := Attempt(c, subset, s);
      AttemptKeeps(c, subset, s);
      AttemptSpares(c, subset, h, j, s);
      match outcome
      case Committed(verdicts) =>
        WritesKeepLog(next, subset, i => if i in verdicts then verdicts[i] else Ack());
      case RolledBack(Violation(blocked)) =>
        GroupsViolationSpares(c, groups, h, j, s);
      case RolledBack(Fault(err)) =>
        RolledBackIsSilent(c, subset, s);
        if c.transient(err) && next.budget > 0 {
          BisectGroupsSpares(c, groups, h, j, Spend(next));
          SparesThen(s, Spend(next), e, j);
        } else if c.transient(err) {
          WritesKeepLog(next, subset, i => TransientResult(c, err));
        } else if |groups| == 1 {
          OneGroup(c, groups);
          OrderedSpares(c, groups[0], Some(err), false, h, j, next);
          SparesThen(s, next, e, j);
        } else {
          GroupHalvesSpare(c, groups, h, j, next);
          SparesThen(s, next, e, j);
        }
    }
  }

  lemma {:induction false} GroupHalvesSpare(c: Ctx, groups: seq<seq<nat>>, h: nat, j: nat, s: State)
    requires ValidGroups(c, groups) && |groups| > 1 && |s.results| == |c.msgs| && Untouched(s, Flat(groups))
    requires c.dedup && j < |c.msgs| && RepeatsHead(c, h, j) && Rooted(c, Flat(groups), h, j, s)
    ensures var middle := |groups| / 2;
      ValidGroups(c, groups[..middle]) && ValidGroups(c, groups[middle..])
      && Spares(s, BisectGroups(c, groups[middle..], BisectGroups(c, groups[..middle], s)), j)
    decreases |Flat(groups)|, s.budget, 0
  {
    hide Kept, Logged, Claimed, Justified, Explains, Attempt, Opens;
    var middle := |groups| / 2;
    var a, b := groups[..middle], groups[middle..];
    HalvesShrink(c, groups, middle);
    assert groups == a + b;
    FlatConcat(a, b);
    FlatOfValid(c, groups);
    KeysApart(c, groups, middle);
    BisectGroupsSound(c, a, s);
    BisectGroupsSpares(c, a, h, j, s);
    var half := BisectGroups(c, a, s);
    WritesGrow(c, Flat(a), s, half);
    TableGrows(c, Flat(a), s, half);
    assert Untouched(half, Flat(b)) by {
      forall i | i in Flat(b) ensures i !in half.writes {
        DisjointHalves(Flat(a), Flat(b), i);
      }
    }
    BisectGroupsSpares(c, b, h, j, half);
    SparesThen(s, half, BisectGroups(c, b, half), j);
  }

  lemma {:induction false} GroupsViolationSpares(c: Ctx, groups: seq<seq<nat>>, h: nat, j: nat, s: State)
    requires ValidGroups(c, groups) && |s.results| == |c.msgs| && Untouched(s, Flat(groups)) && Flat(groups) != []
    requires c.dedup && j < |c.msgs| && RepeatsHead(c, h, j) && Rooted(c, Flat(groups), h, j, s)
    requires InRange(c, Sort(Flat(groups)))
    requires var outcome := Attempt(c, Sort(Flat(groups)), s).1; outcome.RolledBack? && outcome.failure.Violation?
    ensures Spares(s, BisectGroups(c, groups, s), j)
    decreases |Flat(groups)|, s.budget, 0
  {
    hide Kept, Logged, Claimed, Justified, Explains, Attempt, Opens;
    SubsetOfValid(c, groups);
    FlatOfValid(c, groups);
    var subset := Sort(Flat(groups));
    var (next, outcome) := Attempt(c, subset, s);
    AttemptKeeps(c, subset, s);
    var blocked := outcome.failure.blocked;
    var rest := WithoutIndexes(groups, blocked);
    var held := Block(c, next, blocked);
    ViolationBlocks(c, subset, s);
    BlockSound(c, subset, s);
    BlockedInRange(c, subset, s);
    BlockedShrinks(c, groups, blocked);
    WithoutMembers(groups, blocked);
    WritesGrow(c, blocked, s, held);
    HeadIsNotBlocked(c, subset, s, h);
    BisectGroupsSpares(c, rest, h, j, held);
    assert Spares(s, held, j) by { assert NewLog(s, held) == []; }
    SparesThen(s, held, BisectGroups(c, groups, s), j);
  }

  /** The repeat of a head is never committed. */
  lemma HeadRepeatsNeverCommit(c: Ctx, processed: set<string>, budget: nat, h: nat, j: nat)
    requires c.ordered && c.dedup && j < |c.msgs| && RepeatsHead(c, h, j)
    ensures j !in Handle(c, processed, budget).log
  {
    hide BisectGroups, ValidGroups, Opens;
    var s := Initial(c, processed, budget);
    WholeBatch(c);
    BisectGroupsSpares(c, GroupsOf(c, |c.msgs|), h, j, s);
    assert NewLog(s, Handle(c, processed, budget)) == Handle(c, processed, budget).log;
  }

  /** No repeat can overtake: each message leads its deduplication key or repeats the head of its order key. */
  ghost predicate Undisturbed(c: Ctx) {
    forall j: nat :: j < |c.msgs| ==> Leads(c, j) || exists h :: RepeatsHead(c, h, j)
  }

  /** Every committed message follows only acked messages of its order key. */
  ghost predicate InKeyOrder(c: Ctx, e: State) {
    |e.results| == |c.msgs| &&
    forall i: nat, j: nat :: i < j < |c.msgs| && c.OrderKey(i) == c.OrderKey(j) && j in e.log ==> Acked(e.results[i])
  }

  /** Whatever the handler and the database answer, whatever is claimed and however often it may be retried. */
  ghost predicate AlwaysInOrder(c: Ctx) {
    forall oracle: Oracle, processed: set<string>, budget: nat ::
      InKeyOrder(c.(oracle := oracle), Handle(c.(oracle := oracle), processed, budget))
  }

  lemma UndisturbedKeepsOrder(c: Ctx, processed: set<string>, budget: nat)
    requires c.ordered && Undisturbed(c)
    ensures InKeyOrder(c, Handle(c, processed, budget))
  {
    hide Handle, Leads, RepeatsHead;
    EverySlotOnce(c, processed, budget);
    var e := Handle(c, processed, budget);
    forall i: nat, j: nat | i < j < |c.msgs| && c.OrderKey(i) == c.OrderKey(j) && j in e.log
      ensures Acked(e.results[i])
    {
      CommittedLeads(c, processed, budget, j);
      CommittedBehindAcked(c, processed, budget, i, j);
    }
  }

  lemma LeadsWithoutDedup(c: Ctx, j: nat)
    requires j < |c.msgs|
    ensures !c.dedup ==> Leads(c, j)
  {
  }

  lemma CommittedLeads(c: Ctx, processed: set<string>, budget: nat, j: nat)
    requires c.ordered && Undisturbed(c) && j < |c.msgs| && j in Handle(c, processed, budget).log
    ensures Leads(c, j)
  {
    hide Handle, Leads, RepeatsHead;
    LeadsWithoutDedup(c, j);
    if !Leads(c, j) {
      var h :| RepeatsHead(c, h, j);
      HeadRepeatsNeverCommit(c, processed, budget, h, j);
    }
  }

  /** Equal deduplication keys have equal order keys. */
  ghost predicate KeysFollowOrder(c: Ctx) {
    forall i: nat, j: nat :: i < j < |c.msgs| && c.Key(i) == c.Key(j) ==> c.OrderKey(i) == c.OrderKey(j)
  }

  /** The first message with a key, which does not open its order key, and a repeat of it. */
  ghost predicate Overtakable(c: Ctx, h: nat, i: nat, j: nat) {
    && h < i < j < |c.msgs|
    && c.OrderKey(h) == c.OrderKey(i) == c.OrderKey(j) && c.Key(i) == c.Key(j)
    && forall k :: 0 <= k < i ==> c.Key(k) != c.Key(i)
  }

  function Flip(t: nat, p: int): (result: Result)
    ensures Acked(result) == (t != 0 || p != 0)
  {
    if t == 0 && p == 0 then Nak(ERR_MISSING_RESULT) else Ack()
  }

  /** Naks the first message of transaction 0, and acks everything else. */
  function Flipping(): Oracle {
    Oracle(_ => Surroundings({}, None, None, None),
           (t: nat, selection: seq<nat>) => Answered(seq(|selection|, p => Flip(t, p))))
  }

  /** In transaction t the database does not fail, and only the first message of transaction 0 is not acked. */
  ghost predicate FlipsAt(oracle: Oracle, t: nat, selection: seq<nat>) {
    var reply := oracle.apply(t, selection);
    && oracle.around(t) == Surroundings({}, None, None, None)
    && reply.Answered? && |reply.results| == |selection|
    && forall p :: 0 <= p < |selection| ==> Acked(reply.results[p]) == (t != 0 || p != 0)
  }

  ghost predicate Flips(oracle: Oracle) {
    forall t: nat, selection: seq<nat> :: FlipsAt(oracle, t, selection)
  }

  lemma FlippingReplies(t: nat, selection: seq<nat>)
    ensures FlipsAt(Flipping(), t, selection)
  {
    hide Flip;
    assert Flipping().around(t) == Surroundings({}, None, None, None);
  }

  lemma FlippingFlips()
    ensures Flips(Flipping())
  {
    hide Flipping;
    forall t: nat, selection: seq<nat> ensures FlipsAt(Flipping(), t, selection) {
      FlippingReplies(t, selection);
    }
  }

  /** The keys of all other order keys. */
  function OtherKeys(c: Ctx, orderKey: string): set<string> {
    set i | 0 <= i < |c.msgs| && c.OrderKey(i) != orderKey :: c.Key(i)
  }

  /** Some message with the key is fresh, and it is the first one in subset. */
  lemma {:induction false} FreshHas(c: Ctx, subset: seq<nat>, processed: set<string>, i: nat) returns (f: nat)
    requires InRange(c, subset) && Ascending(subset) && i in subset && c.dedup && c.Key(i) !in processed
    ensures f in Fresh(c, subset, processed) && f <= i && c.Key(f) == c.Key(i)
  {
    if i in Fresh(c, subset, processed) {
      f := i;
    } else {
      NotFresh(c, subset, processed, i);
      var k :| k in subset && k < i && c.Key(k) == c.Key(i);
      f := FreshHas(c, subset, processed, k);
    }
  }

  /** When only the other keys are claimed, i is fresh behind some f, and j is not. */
  lemma FreshOfOrderKey(c: Ctx, processed: set<string>, h: nat, i: nat, j: nat) returns (f: nat)
    requires c.dedup && KeysFollowOrder(c) && Overtakable(c, h, i, j) && processed == OtherKeys(c, c.OrderKey(j))
    ensures var indexes := Fresh(c, All(|c.msgs|), processed);
      && InRange(c, indexes) && Ascending(indexes) && f < i && f in indexes && i in indexes && j !in indexes
      && forall k :: k in indexes ==> c.OrderKey(k) == c.OrderKey(i)
  {
    hide Fresh, KeysFollowOrder, OtherKeys;
    var subset := All(|c.msgs|);
    AllMember(|c.msgs|);
    FreshAscends(c, subset, processed);
    KeyUnclaimed(c, i, j);
    f := FreshHas(c, subset, processed, h);
    var g := FreshHas(c, subset, processed, i);
    FreshOfKey(c, subset, j);
    if j in Fresh(c, subset, processed) {
      FreshIsFirst(c, subset, processed, j, i);
    }
  }

  /** What the handler blocks in the first attempt of the batch. */
  lemma FirstBlocks(c: Ctx, processed: set<string>, h: nat, i: nat, j: nat) returns (blocked: seq<nat>)
    requires c.dedup && Flips(c.oracle) && KeysFollowOrder(c) && Overtakable(c, h, i, j)
    requires processed == OtherKeys(c, c.OrderKey(j))
    ensures var indexes := Fresh(c, All(|c.msgs|), processed);
      var reply := c.oracle.apply(0, indexes);
      && indexes != [] && reply.Answered? && |reply.results| == |indexes|
      && blocked == OrderViolations(c, indexes, reply.results)
      && i in blocked && j !in blocked
  {
    hide Fresh, OrderViolations, KeysFollowOrder, Overtakable, OtherKeys, Ascending;
    var indexes := Fresh(c, All(|c.msgs|), processed);
    var f := FreshOfOrderKey(c, processed, h, i, j);
    assert FlipsAt(c.oracle, 0, indexes);
    var applied := c.oracle.apply(0, indexes).results;
    blocked := OrderViolations(c, indexes, applied);
    BlocksAllButFirst(c, indexes, applied, i, f);
  }

  /** A reply with violations ends its transaction. */
  lemma EndsViolated(c: Ctx, subset: seq<nat>, seen: set<string>, t: nat)
    requires c.ordered && c.perMessage && InRange(c, subset) && c.oracle.around(t).claimErr.None?
    requires var indexes := Fresh(c, subset, seen);
      var reply := c.oracle.apply(t, indexes);
      && indexes != [] && reply.Answered? && |reply.results| == |indexes|
      && OrderViolations(c, indexes, reply.results) != []
    ensures var indexes := Fresh(c, subset, seen);
      Ending(c, subset, seen, t) == RolledBack(Violation(OrderViolations(c, indexes, c.oracle.apply(t, indexes).results)))
  {
    hide Fresh, OrderViolations;
  }

  /** The first attempt of the batch is rolled back: the handler nak'ed the first fresh message of the order
      key, and everything fresh behind it is blocked. */
  lemma FirstIsBlocked(c: Ctx, s: State, h: nat, i: nat, j: nat) returns (blocked: seq<nat>)
    requires c.ordered && c.dedup && c.perMessage && Flips(c.oracle) && KeysFollowOrder(c) && Overtakable(c, h, i, j)
    requires s == Initial(c, OtherKeys(c, c.OrderKey(j)), s.budget)
    ensures var subset := All(|c.msgs|);
      && Attempt(c, subset, s) == (s.(trace := [Entry(subset, RolledBack(Violation(blocked)))]), RolledBack(Violation(blocked)))
      && i in blocked && j !in blocked
  {
    hide Fresh, OrderViolations, KeysFollowOrder, Overtakable, OtherKeys, Ending;
    var subset := All(|c.msgs|);
    blocked := FirstBlocks(c, s.processed, h, i, j);
    assert FlipsAt(c.oracle, 0, Fresh(c, subset, s.processed));
    assert Seen(c, s) == s.processed;
    EndsViolated(c, subset, s.processed, 0);
    assert s.trace + [Entry(subset, RolledBack(Violation(blocked)))] == [Entry(subset, RolledBack(Violation(blocked)))];
  }

  lemma KeyUnclaimed(c: Ctx, i: nat, j: nat)
    requires i < |c.msgs| && j < |c.msgs| && KeysFollowOrder(c) && c.OrderKey(i) == c.OrderKey(j)
    ensures forall k :: 0 <= k < |c.msgs| && c.OrderKey(k) == c.OrderKey(j) ==> c.Key(k) !in OtherKeys(c, c.OrderKey(j))
  {
    forall k: nat, l: nat | k < |c.msgs| && l < |c.msgs| && c.OrderKey(k) == c.OrderKey(j) && c.OrderKey(l) != c.OrderKey(j)
      ensures c.Key(k) != c.Key(l)
    {
      if c.Key(k) == c.Key(l) {
        SameOrderKey(c, k, l);
      }
    }
  }

  /** Every fresh message has the order key. */
  lemma FreshOfKey(c: Ctx, subset: seq<nat>, j: nat)
    requires InRange(c, subset) && Ascending(subset) && c.dedup && j < |c.msgs|
    ensures forall k :: k in Fresh(c, subset, OtherKeys(c, c.OrderKey(j))) ==>
      k < |c.msgs| && c.OrderKey(k) == c.OrderKey(j)
  {
    var processed := OtherKeys(c, c.OrderKey(j));
    forall k | k in Fresh(c, subset, processed) ensures k < |c.msgs| && c.OrderKey(k) == c.OrderKey(j) {
      FreshIsUnclaimed(c, subset, processed, k);
      assert k in subset;
    }
  }

  lemma BlocksAllButFirst(c: Ctx, indexes: seq<nat>, applied: seq<Result>, i: nat, f: nat)
    requires InRange(c, indexes) && Ascending(indexes) && |applied| == |indexes| && i in indexes && f in indexes && f < i
    requires forall k :: k in indexes ==> c.OrderKey(k) == c.OrderKey(i)
    requires forall p :: 0 <= p < |applied| ==> Acked(applied[p]) == (p != 0)
    ensures i in OrderViolations(c, indexes, applied)
    ensures forall k :: k in OrderViolations(c, indexes, applied) ==> k in indexes
  {
    AscendsNoRepeat(indexes);
    var p := IndexOf(indexes, i);
    var q := IndexOf(indexes, f);
    assert q < p;
    assert indexes[0] in indexes;
    Violates(c, indexes, applied, 0, p);
    ViolationAt(c, indexes, applied, |indexes|, p);
  }

  /** The second attempt is committed with every message that is fresh now. */
  lemma RestIsCommitted(c: Ctx, subset: seq<nat>, s: State)
    requires c.ordered && c.dedup && c.perMessage && Flips(c.oracle) && InRange(c, subset) && Ascending(subset)
    requires |s.trace| == 1 && s.log == []
    ensures var (next, outcome) := Attempt(c, subset, s);
      && outcome.Committed? && next.results == s.results
      && forall k :: k in Fresh(c, subset, s.processed) ==> k in next.log
  {
    hide Fresh, OrderViolations, Verdicts, AckedOf, Released;
    var indexes := Fresh(c, subset, s.processed);
    FreshAscends(c, subset, s.processed);
    AscendsNoRepeat(indexes);
    assert FlipsAt(c.oracle, 1, indexes);
    var applied := c.oracle.apply(1, indexes).results;
    NothingViolated(c, indexes, applied);
    assert Seen(c, s) == s.processed;
    var verdicts := if indexes == [] then map[] else Verdicts(indexes, applied);
    AllReleased(c, indexes, applied);
    assert indexes != [] ==> Judged(c, indexes, c.oracle.apply(1, indexes)) == Committed(Verdicts(indexes, applied));
    assert Ending(c, subset, s.processed, 1) == Committed(verdicts);
    forall k | k in indexes ensures k in AckedOf(indexes, verdicts) {
      AckedOfMember(indexes, verdicts, k);
    }
  }

  lemma NothingViolated(c: Ctx, indexes: seq<nat>, applied: seq<Result>)
    requires InRange(c, indexes) && |applied| == |indexes| && forall p :: 0 <= p < |applied| ==> Acked(applied[p])
    ensures OrderViolations(c, indexes, applied) == []
  {
    NoneUpTo(c, indexes, applied, |indexes|);
  }

  lemma {:induction false} NoneUpTo(c: Ctx, indexes: seq<nat>, applied: seq<Result>, n: nat)
    requires InRange(c, indexes) && |applied| == |indexes| && n <= |indexes|
    requires forall p :: 0 <= p < |applied| ==> Acked(applied[p])
    ensures ViolationsUpTo(c, indexes, applied, n) == []
  {
    if n > 0 {
      NoneUpTo(c, indexes, applied, n - 1);
    }
  }

  /** When all verdicts are acks, no claim is released. */
  lemma AllReleased(c: Ctx, indexes: seq<nat>, applied: seq<Result>)
    requires InRange(c, indexes) && NoRepeat(indexes) && |applied| == |indexes|
    requires forall p :: 0 <= p < |applied| ==> Acked(applied[p])
    ensures var verdicts := Verdicts(indexes, applied);
      && (forall k :: k in verdicts ==> k in indexes && Acked(verdicts[k]))
      && Released(c, indexes, verdicts) == {} && Released(c, indexes, map[]) == {}
  {
    VerdictsDomain(indexes, applied);
    var verdicts := Verdicts(indexes, applied);
    forall k | k in verdicts ensures k in indexes && Acked(verdicts[k]) {
      var p := IndexOf(indexes, k);
      VerdictsAt(indexes, applied, p);
    }
  }

  /** In every batch with a repeat of a message that does not open its order key, some handler commits a
      repeat while the message it repeats is held. */
  lemma RepeatOvertakes(c: Ctx, h: nat, i: nat, j: nat)
    requires c.ordered && c.dedup && c.perMessage && Flips(c.oracle)
    requires KeysFollowOrder(c) && Overtakable(c, h, i, j)
    ensures var e := Handle(c, OtherKeys(c, c.OrderKey(j)), 0);
      && |e.results| == |c.msgs| && e.results[i] == Blocked(c)
      && exists k: nat :: i < k < |c.msgs| && k in e.log && c.Key(k) == c.Key(i) && c.OrderKey(k) == c.OrderKey(i)
  {
    hide Attempt, GroupsOf, Sort, Flat, WithoutIndexes, ValidGroups, Ordered, OtherKeys, Fresh, Flips;
    var n := |c.msgs|;
    var s := Initial(c, OtherKeys(c, c.OrderKey(j)), 0);
    WholeBatch(c);
    var groups := GroupsOf(c, n);
    AllMember(n);
    var blocked := FirstIsBlocked(c, s, h, i, j);
    ViolationBlocks(c, All(n), s);
    BlockedShrinks(c, groups, blocked);
    var rest := WithoutIndexes(groups, blocked);
    SubsetOfValid(c, rest);
    WithoutMembers(groups, blocked);
    var held := Block(c, Attempt(c, All(n), s).0, blocked);
    var subset := Sort(Flat(rest));
    assert j in subset && i !in subset;
    RestIsCommitted(c, subset, held);
    KeyUnclaimed(c, i, j);
    var k := FreshHas(c, subset, held.processed, j);
    var (next, outcome) := Attempt(c, subset, held);
    assert BisectGroups(c, rest, held) == Record(next, subset, outcome.verdicts);
    assert BisectGroups(c, groups, s) == BisectGroups(c, rest, held);
    assert k in subset;
    SameOrderKey(c, k, j);
  }

  lemma SameOrderKey(c: Ctx, k: nat, j: nat)
    requires KeysFollowOrder(c) && k < |c.msgs| && j < |c.msgs| && c.Key(k) == c.Key(j)
    ensures c.OrderKey(k) == c.OrderKey(j)
  {
    assert k < j ==> c.OrderKey(k) == c.OrderKey(j);
    assert j < k ==> c.OrderKey(j) == c.OrderKey(k);
  }

  /** These conditions are about the messages and the options, not about the handler. */
  lemma HandlerIsFree(c: Ctx, d: Ctx)
    requires d == c.(oracle := d.oracle)
    ensures KeysFollowOrder(c) == KeysFollowOrder(d) && Undisturbed(c) == Undisturbed(d)
    ensures forall h: nat, i: nat, j: nat :: Overtakable(c, h, i, j) == Overtakable(d, h, i, j)
  {
    forall k: nat | k < |c.msgs| ensures c.Key(k) == d.Key(k) && c.OrderKey(k) == d.OrderKey(k) {
    }
    forall j: nat | j < |c.msgs| ensures Leads(c, j) == Leads(d, j) {
    }
    forall h: nat, j: nat | j < |c.msgs| ensures RepeatsHead(c, h, j) == RepeatsHead(d, h, j) {
    }
  }

  /** A batch that is disturbed has a repeat of a message that does not open its order key. */
  lemma DisturbedIsOvertakable(c: Ctx) returns (h: nat, i: nat, j: nat)
    requires KeysFollowOrder(c) && !Undisturbed(c)
    ensures c.dedup && c.perMessage && Overtakable(c, h, i, j)
  {
    j :| j < |c.msgs| && !Leads(c, j) && !exists h :: RepeatsHead(c, h, j);
    var k :| 0 <= k < j && c.Key(k) == c.Key(j);
    i := FirstOfKey(c, k);
    SameOrderKey(c, i, j);
    assert !RepeatsHead(c, i, j);
    h :| 0 <= h < i && c.OrderKey(h) == c.OrderKey(i);
  }

  lemma {:induction false} FirstOfKey(c: Ctx, k: nat) returns (i: nat)
    requires k < |c.msgs|
    ensures i <= k && c.Key(i) == c.Key(k) && forall l :: 0 <= l < i ==> c.Key(l) != c.Key(i)
  {
    if l :| 0 <= l < k && c.Key(l) == c.Key(k) {
      i := FirstOfKey(c, l);
    } else {
      i := k;
    }
  }

  /** Deduplication is off, the handler gives no verdicts, or no deduplication key other than that of the
      message that opens its order key occurs twice. */
  ghost predicate OnlyHeadsRepeat(c: Ctx) {
    !c.dedup || !c.perMessage || forall h: nat, i: nat, j: nat :: !Overtakable(c, h, i, j)
  }

  lemma UndisturbedIs(c: Ctx)
    requires KeysFollowOrder(c)
    ensures Undisturbed(c) <==> OnlyHeadsRepeat(c)
  {
    hide KeysFollowOrder;
    if !Undisturbed(c) {
      var h, i, j := DisturbedIsOvertakable(c);
    }
    forall h: nat, i: nat, j: nat | c.dedup && c.perMessage && Overtakable(c, h, i, j) ensures !Undisturbed(c) {
      OvertakenDisturbs(c, h, i, j);
    }
  }

  lemma OvertakenDisturbs(c: Ctx, h: nat, i: nat, j: nat)
    requires c.dedup && c.perMessage && Overtakable(c, h, i, j)
    ensures !Undisturbed(c)
  {
    assert !Leads(c, j);
    forall g: nat ensures !RepeatsHead(c, g, j) {
      if g < i {
        assert c.Key(g) != c.Key(i);
      }
    }
  }

  /** Order, exactly. For batches in which equal deduplication keys have equal order keys, every handler,
      database, claimed set and budget keeps the order of the batch if and only if only heads repeat. */
  lemma OrderKeptIff(c: Ctx)
    requires c.ordered && KeysFollowOrder(c)
    ensures AlwaysInOrder(c) <==> OnlyHeadsRepeat(c)
  {
    hide Undisturbed, KeysFollowOrder, AlwaysInOrder, OnlyHeadsRepeat;
    UndisturbedIs(c);
    if Undisturbed(c) {
      UndisturbedAlways(c);
    } else {
      DisturbedNotAlways(c);
    }
  }

  /** One half needs no condition on the keys. */
  lemma UndisturbedAlways(c: Ctx)
    requires c.ordered && Undisturbed(c)
    ensures AlwaysInOrder(c)
  {
    hide Handle, Undisturbed, InKeyOrder;
    forall oracle: Oracle, processed: set<string>, budget: nat
      ensures InKeyOrder(c.(oracle := oracle), Handle(c.(oracle := oracle), processed, budget))
    {
      HandlerIsFree(c, c.(oracle := oracle));
      UndisturbedKeepsOrder(c.(oracle := oracle), processed, budget);
    }
  }

  lemma DisturbedNotAlways(c: Ctx)
    requires c.ordered && KeysFollowOrder(c) && !Undisturbed(c)
    ensures !AlwaysInOrder(c)
  {
    hide Handle, Undisturbed, KeysFollowOrder, Overtakable, InKeyOrder, Flips, Flipping, AlwaysInOrder, OtherKeys;
    var h, i, j := DisturbedIsOvertakable(c);
    FlippingFlips();
    var d := c.(oracle := Flipping());
    HandlerIsFree(c, d);
    InBatch(c, h, i, j);
    RepeatOvertakes(d, h, i, j);
    var processed := OtherKeys(d, d.OrderKey(j));
    OutOfOrder(d, Handle(d, processed, 0), i);
    NotAlways(c, Flipping(), processed, 0);
  }

  lemma NotAlways(c: Ctx, oracle: Oracle, processed: set<string>, budget: nat)
    requires !InKeyOrder(c.(oracle := oracle), Handle(c.(oracle := oracle), processed, budget))
    ensures !AlwaysInOrder(c)
  {
    hide Handle, InKeyOrder;
  }

  lemma OutOfOrder(c: Ctx, e: State, i: nat)
    requires i < |c.msgs| && |e.results| == |c.msgs| && e.results[i] == Blocked(c)
    requires exists k: nat :: i < k < |c.msgs| && k in e.log && c.Key(k) == c.Key(i) && c.OrderKey(k) == c.OrderKey(i)
    ensures !InKeyOrder(c, e)
  {
  }

  lemma InBatch(c: Ctx, h: nat, i: nat, j: nat)
    requires Overtakable(c, h, i, j)
    ensures h < i < j < |c.msgs|
  {
  }
}
