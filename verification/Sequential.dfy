/** One-at-a-time processing of a batch, and group bisection as a refinement of it. */
module Sequential {
  import opened BatchTypes
  import opened Attempts
  import opened Groups
  import opened AttemptFacts
  import opened Bisection
  import opened Soundness
  import opened OrderSafety
  import opened Refinement

  /** The messages of idxs with one order key. */
  function Project(c: Ctx, idxs: seq<nat>, key: string): (r: seq<nat>)
    requires InRange(c, idxs)
    ensures InRange(c, r)
  {
    if idxs == [] then []
    else
      Project(c, idxs[..|idxs| - 1], key) +
      (if c.OrderKey(idxs[|idxs| - 1]) == key then [idxs[|idxs| - 1]] else [])
  }

  lemma {:induction false} ProjectConcat(c: Ctx, a: seq<nat>, b: seq<nat>, key: string)
    requires InRange(c, a) && InRange(c, b)
    ensures Project(c, a + b, key) == Project(c, a, key) + Project(c, b, key)
  {
    if b == [] {
      assert a + b == a;
    } else {
      var init, last := b[..|b| - 1], b[|b| - 1];
      assert (a + b)[..|a + b| - 1] == a + init;
      ProjectConcat(c, a, init, key);
    }
  }

  lemma {:induction false} ProjectMember(c: Ctx, idxs: seq<nat>, key: string, i: nat)
    requires InRange(c, idxs) && i < |c.msgs|
    ensures i in Project(c, idxs, key) <==> i in idxs && c.OrderKey(i) == key
  {
    if idxs != [] {
      ProjectMember(c, idxs[..|idxs| - 1], key, i);
      assert idxs == idxs[..|idxs| - 1] + [idxs[|idxs| - 1]];
    }
  }

  lemma {:induction false} ProjectAscends(c: Ctx, idxs: seq<nat>, key: string)
    requires InRange(c, idxs) && Ascending(idxs)
    ensures Ascending(Project(c, idxs, key))
  {
    if idxs != [] {
      var init, last := idxs[..|idxs| - 1], idxs[|idxs| - 1];
      ProjectAscends(c, init, key);
      var rest := Project(c, init, key);
      forall p | 0 <= p < |rest| ensures rest[p] < last {
        assert rest[p] in rest;
        ProjectMember(c, init, key, rest[p]);
      }
      AppendAscends(rest, last);
    }
  }

  lemma {:induction false} ProjectNothing(c: Ctx, idxs: seq<nat>, key: string)
    requires InRange(c, idxs) && forall p :: 0 <= p < |idxs| ==> c.OrderKey(idxs[p]) != key
    ensures Project(c, idxs, key) == []
  {
    if idxs != [] {
      ProjectNothing(c, idxs[..|idxs| - 1], key);
    }
  }

  /** The good prefixes of the groups, one after the other. */
  function GoodOf(c: Ctx, bad: set<nat>, processed: set<string>, groups: seq<seq<nat>>): (r: seq<nat>)
    requires forall p :: 0 <= p < |groups| ==> InRange(c, groups[p])
    ensures InRange(c, r)
  {
    if groups == [] then []
    else groups[0][..Cut(c, bad, processed, groups[0])] + GoodOf(c, bad, processed, groups[1..])
  }

  lemma {:induction false} GoodConcat(c: Ctx, bad: set<nat>, processed: set<string>, a: seq<seq<nat>>, b: seq<seq<nat>>)
    requires forall p :: 0 <= p < |a| ==> InRange(c, a[p])
    requires forall p :: 0 <= p < |b| ==> InRange(c, b[p])
    ensures GoodOf(c, bad, processed, a + b) == GoodOf(c, bad, processed, a) + GoodOf(c, bad, processed, b)
  {
    if a == [] {
      assert a + b == b;
    } else {
      GoodConcat(c, bad, processed, a[1..], b);
      assert (a + b)[0] == a[0] && (a + b)[1..] == a[1..] + b;
    }
  }

  lemma {:induction false} GoodInside(c: Ctx, bad: set<nat>, processed: set<string>, groups: seq<seq<nat>>, i: nat)
    requires forall p :: 0 <= p < |groups| ==> InRange(c, groups[p])
    requires i in GoodOf(c, bad, processed, groups)
    ensures exists p :: 0 <= p < |groups| && i in groups[p][..Cut(c, bad, processed, groups[p])]
    ensures i in Flat(groups)
  {
    if i in groups[0][..Cut(c, bad, processed, groups[0])] {
    } else {
      GoodInside(c, bad, processed, groups[1..], i);
      var p :| 0 <= p < |groups[1..]| && i in groups[1..][p][..Cut(c, bad, processed, groups[1..][p])];
      assert groups[1..][p] == groups[p + 1];
    }
  }

  lemma {:induction false} GoodCovers(c: Ctx, bad: set<nat>, processed: set<string>, groups: seq<seq<nat>>, p: nat, i: nat)
    requires forall p :: 0 <= p < |groups| ==> InRange(c, groups[p])
    requires p < |groups| && i in groups[p][..Cut(c, bad, processed, groups[p])]
    ensures i in GoodOf(c, bad, processed, groups)
  {
    if p > 0 {
      assert groups[1..][p - 1] == groups[p];
      GoodCovers(c, bad, processed, groups[1..], p - 1, i);
    }
  }

  /** The effects of one order key inside the good prefixes, in order. */
  lemma {:induction false} GoodAscends(c: Ctx, bad: set<nat>, processed: set<string>, groups: seq<seq<nat>>, key: string)
    requires ValidGroups(c, groups)
    ensures Ascending(Project(c, GoodOf(c, bad, processed, groups), key))
    ensures key !in Heads(c, groups) ==> Project(c, GoodOf(c, bad, processed, groups), key) == []
  {
    if groups != [] {
      TailValid(c, groups);
      GoodAscends(c, bad, processed, groups[1..], key);
      var first := groups[0][..Cut(c, bad, processed, groups[0])];
      ProjectConcat(c, first, GoodOf(c, bad, processed, groups[1..]), key);
      ProjectAscends(c, first, key);
      if key != Head(c, groups[0]) {
        ProjectNothing(c, first, key);
      }
    }
  }

  lemma {:induction false} ProjectUnclaimed(c: Ctx, idxs: seq<nat>, processed: set<string>, key: string)
    requires InRange(c, idxs)
    ensures Project(c, Unclaimed(c, idxs, processed), key) == Unclaimed(c, Project(c, idxs, key), processed)
  {
    if idxs != [] {
      var init, last := idxs[..|idxs| - 1], idxs[|idxs| - 1];
      ProjectUnclaimed(c, init, processed, key);
      var tail := if IsFresh(c, processed, last) then [last] else [];
      ProjectConcat(c, Unclaimed(c, init, processed), tail, key);
      UnclaimedConcat(c, Project(c, init, key), if c.OrderKey(last) == key then [last] else [], processed);
      OneMessage(c, last, processed, key);
    }
  }

  lemma OneMessage(c: Ctx, i: nat, processed: set<string>, key: string)
    requires i < |c.msgs|
    ensures Project(c, [i], key) == if c.OrderKey(i) == key then [i] else []
    ensures Unclaimed(c, [i], processed) == if IsFresh(c, processed, i) then [i] else []
  {
    assert [i][..|[i]| - 1] == [];
  }

  ghost predicate GroupsDone(c: Ctx, bad: set<nat>, errOf: seq<nat> -> Error, groups: seq<seq<nat>>,
                             processed: set<string>, results: seq<Result>)
    requires |results| == |c.msgs| && forall p :: 0 <= p < |groups| ==> InRange(c, groups[p])
  {
    forall p :: 0 <= p < |groups| ==> GroupDone(c, errOf, groups[p], Cut(c, bad, processed, groups[p]), results)
  }

  /** The good prefixes were claimed, and committed in order within every order key. */
  ghost predicate GroupsCommitted(c: Ctx, groups: seq<seq<nat>>, good: seq<nat>, s: State, e: State)
    requires InRange(c, good)
  {
    && e.processed == s.processed + Claims(c, good)
    && s.log <= e.log && InRange(c, e.log[|s.log|..])
    && (forall key :: Project(c, e.log[|s.log|..], key) == Project(c, Unclaimed(c, good, s.processed), key))
    && |e.results| == |s.results| && e.budget == s.budget
    && (forall i :: 0 <= i < |s.results| && i !in Flat(groups) ==> e.results[i] == s.results[i])
  }

  lemma OneGroupCommitted(c: Ctx, groups: seq<seq<nat>>, bad: set<nat>, s: State, next: State, e: State)
    requires ValidGroups(c, groups) && |groups| == 1
    requires next == s.(trace := next.trace)
    requires PrefixCommitted(c, groups[0], Cut(c, bad, s.processed, groups[0]), next, e)
    ensures GroupsCommitted(c, groups, GoodOf(c, bad, s.processed, groups), s, e)
  {
    var good := groups[0][..Cut(c, bad, s.processed, groups[0])];
    assert GoodOf(c, bad, s.processed, groups) == good + GoodOf(c, bad, s.processed, groups[1..]);
    assert GoodOf(c, bad, s.processed, groups) == good;
    assert e.log[|s.log|..] == Unclaimed(c, good, s.processed);
    OneGroup(c, groups);
  }

  lemma {:induction false} NoCut(c: Ctx, bad: set<nat>, processed: set<string>, groups: seq<seq<nat>>)
    requires forall p :: 0 <= p < |groups| ==> InRange(c, groups[p])
    requires forall p :: 0 <= p < |groups| ==> Cut(c, bad, processed, groups[p]) == |groups[p]|
    ensures GoodOf(c, bad, processed, groups) == Flat(groups)
  {
    if groups != [] {
      NoCut(c, bad, processed, groups[1..]);
      assert groups[0][..|groups[0]|] == groups[0];
    }
  }

  lemma GroupHasNoBad(c: Ctx, bad: set<nat>, processed: set<string>, groups: seq<seq<nat>>, p: nat)
    requires ValidGroups(c, groups) && p < |groups|
    requires InRange(c, Sort(Flat(groups))) && !HasBad(Unclaimed(c, Sort(Flat(groups)), processed), bad)
    ensures Cut(c, bad, processed, groups[p]) == |groups[p]|
  {
    var cut := Cut(c, bad, processed, groups[p]);
    CutIsFirst(c, bad, processed, groups[p]);
    if cut < |groups[p]| {
      var i := groups[p][cut];
      FlatMember(groups, i);
      SortMember(Flat(groups), i);
      UnclaimedMember(c, Sort(Flat(groups)), processed, i);
    }
  }

  /** A commit of all groups at once. */
  lemma WholeCommit(c: Ctx, bad: set<nat>, errOf: seq<nat> -> Error, groups: seq<seq<nat>>, s: State, next: State)
    requires ValidGroups(c, groups) && |s.results| == |c.msgs|
    requires InRange(c, Sort(Flat(groups))) && !HasBad(Unclaimed(c, Sort(Flat(groups)), s.processed), bad)
    requires var subset := Sort(Flat(groups));
      next == s.(processed := s.processed + Claims(c, subset), log := s.log + Unclaimed(c, subset, s.processed), trace := next.trace)
    ensures var e := Record(next, Sort(Flat(groups)), map[]);
      && GroupsCommitted(c, groups, GoodOf(c, bad, s.processed, groups), s, e)
      && GroupsDone(c, bad, errOf, groups, s.processed, e.results)
  {
    var subset := Sort(Flat(groups));
    var e := Record(next, subset, map[]);
    SubsetOfValid(c, groups);
    FlatOfValid(c, groups);
    forall p | 0 <= p < |groups|
      ensures Cut(c, bad, s.processed, groups[p]) == |groups[p]|
      ensures GroupDone(c, errOf, groups[p], |groups[p]|, e.results)
    {
      GroupHasNoBad(c, bad, s.processed, groups, p);
      forall k | 0 <= k < |groups[p]| ensures groups[p][k] in subset {
        FlatMember(groups, groups[p][k]);
      }
    }
    NoCut(c, bad, s.processed, groups);
    assert Keys(c, subset) == Keys(c, Flat(groups));
    var log := Unclaimed(c, subset, s.processed);
    assert e.log[|s.log|..] == log;
    forall key ensures Project(c, log, key) == Project(c, Unclaimed(c, Flat(groups), s.processed), key) {
      GoodAscends(c, bad, s.processed, groups, key);
      ProjectAscends(c, subset, key);
      SameProjection(c, subset, Flat(groups), key);
      ProjectUnclaimed(c, subset, s.processed, key);
      ProjectUnclaimed(c, Flat(groups), s.processed, key);
    }
  }

  lemma SameProjection(c: Ctx, a: seq<nat>, b: seq<nat>, key: string)
    requires InRange(c, a) && InRange(c, b) && forall i :: i in a <==> i in b
    requires Ascending(Project(c, a, key)) && Ascending(Project(c, b, key))
    ensures Project(c, a, key) == Project(c, b, key)
  {
    var x, y := Project(c, a, key), Project(c, b, key);
    forall i ensures i in x <==> i in y {
      if i in x {
        assert i < |c.msgs|;
        ProjectMember(c, a, key, i);
        ProjectMember(c, b, key, i);
      }
      if i in y {
        assert i < |c.msgs|;
        ProjectMember(c, a, key, i);
        ProjectMember(c, b, key, i);
      }
    }
    AscendingUnique(x, y);
  }

  lemma JoinDone(c: Ctx, bad: set<nat>, errOf: seq<nat> -> Error, a: seq<seq<nat>>, b: seq<seq<nat>>,
                 processed: set<string>, before: seq<Result>, after: seq<Result>)
    requires ValidGroups(c, a) && ValidGroups(c, b) && |before| == |after| == |c.msgs|
    requires forall i :: i in Flat(a) && i < |c.msgs| ==> after[i] == before[i]
    requires GroupsDone(c, bad, errOf, a, processed, before) && GroupsDone(c, bad, errOf, b, processed, after)
    ensures GroupsDone(c, bad, errOf, a + b, processed, after)
  {
    forall p | 0 <= p < |a|
      ensures GroupDone(c, errOf, a[p], Cut(c, bad, processed, a[p]), after)
    {
      forall k | 0 <= k < |a[p]| ensures after[a[p][k]] == before[a[p][k]] {
        FlatMember(a, a[p][k]);
        assert a[p][k] in a[p];
      }
    }
  }

  /** Two groups of runs over different order keys, one after the other. */
  lemma JoinGroups(c: Ctx, bad: set<nat>, errOf: seq<nat> -> Error, a: seq<seq<nat>>, b: seq<seq<nat>>,
                   s: State, m: State, e: State)
    requires ValidGroups(c, a) && ValidGroups(c, b) && |s.results| == |c.msgs|
    requires forall i :: i in Flat(b) ==> i !in Flat(a)
    requires var ga := GoodOf(c, bad, s.processed, a);
      GroupsCommitted(c, a, ga, s, m) && GroupsDone(c, bad, errOf, a, s.processed, m.results)
    requires var gb := GoodOf(c, bad, s.processed, b);
      && GroupsCommitted(c, b, gb, m, e) && Unclaimed(c, gb, m.processed) == Unclaimed(c, gb, s.processed)
      && GroupsDone(c, bad, errOf, b, s.processed, e.results)
    ensures InRange(c, GoodOf(c, bad, s.processed, a) + GoodOf(c, bad, s.processed, b))
    ensures GroupsCommitted(c, a + b, GoodOf(c, bad, s.processed, a) + GoodOf(c, bad, s.processed, b), s, e)
    ensures GroupsDone(c, bad, errOf, a + b, s.processed, e.results)
  {
    hide GoodOf, Unclaimed, Project, GroupsDone, GroupDone, Cut;
    var ga, gb := GoodOf(c, bad, s.processed, a), GoodOf(c, bad, s.processed, b);
    var la, lb := m.log[|s.log|..], e.log[|m.log|..];
    FlatConcat(a, b);
    assert e.log[|s.log|..] == la + lb;
    UnclaimedConcat(c, ga, gb, s.processed);
    forall key ensures Project(c, la + lb, key) == Project(c, Unclaimed(c, ga + gb, s.processed), key) {
      ProjectConcat(c, la, lb, key);
      ProjectConcat(c, Unclaimed(c, ga, s.processed), Unclaimed(c, gb, s.processed), key);
    }
    JoinDone(c, bad, errOf, a, b, s.processed, m.results, e.results);
  }

  /** The second half of a split sees the same cuts and the same fresh messages. */
  lemma {:induction false} GoodElsewhere(c: Ctx, bad: set<nat>, processed: set<string>, groups: seq<seq<nat>>, others: seq<nat>)
    requires forall p :: 0 <= p < |groups| ==> InRange(c, groups[p])
    requires InRange(c, others) && DistinctBatch(c) && forall i :: i in Flat(groups) ==> i !in others
    ensures GoodOf(c, bad, processed + Claims(c, others), groups) == GoodOf(c, bad, processed, groups)
    ensures forall p :: 0 <= p < |groups| ==>
      Cut(c, bad, processed + Claims(c, others), groups[p]) == Cut(c, bad, processed, groups[p])
  {
    if groups != [] {
      ClaimsElsewhere(c, bad, processed, groups[0], others);
      GoodElsewhere(c, bad, processed, groups[1..], others);
      assert forall p :: 0 < p < |groups| ==> groups[p] == groups[1..][p - 1];
    }
  }

  /** bisectGroups answers and commits every group as if it were alone. */
  lemma {:induction false} BisectGroupsRefines(c: Ctx, bad: set<nat>, errOf: seq<nat> -> Error, groups: seq<seq<nat>>, s: State)
    requires FailsOnBad(c, bad, errOf) && DistinctBatch(c)
    requires ValidGroups(c, groups) && |s.results| == |c.msgs|
    ensures var e := BisectGroups(c, groups, s);
      && |e.results| == |c.msgs|
      && GroupsCommitted(c, groups, GoodOf(c, bad, s.processed, groups), s, e)
      && GroupsDone(c, bad, errOf, groups, s.processed, e.results)
    decreases |Flat(groups)|, s.budget
  {
    hide FailsOnBad, DistinctBatch, Attempt, GroupsCommitted, GroupsDone, Unclaimed, ValidGroups, InRange;
    SubsetOfValid(c, groups);
    FlatOfValid(c, groups);
    GroupsInRange(c, groups);
    var subset := Sort(Flat(groups));
    if subset == [] {
      NothingDone(c, bad, errOf, s);
    } else {
      AscendsNoRepeat(subset);
      AttemptOnBad(c, bad, errOf, subset, s);
      var (next, outcome) := Attempt(c, subset, s);
      if outcome.Committed? {
        WholeCommit(c, bad, errOf, groups, s, next);
      } else {
        NeverTransient(c, bad, errOf, Unclaimed(c, subset, s.processed));
        if |groups| == 1 {
          OneGroupRefines(c, bad, errOf, groups, s, next);
        } else {
          GroupHalvesRefine(c, bad, errOf, groups, next);
          TraceAside(c, groups, GoodOf(c, bad, s.processed, groups), s, next, BisectGroups(c, groups, s));
        }
      }
    }
  }

  lemma NothingDone(c: Ctx, bad: set<nat>, errOf: seq<nat> -> Error, s: State)
    requires |s.results| == |c.msgs|
    ensures GroupsCommitted(c, [], GoodOf(c, bad, s.processed, []), s, s)
    ensures GroupsDone(c, bad, errOf, [], s.processed, s.results)
  {
    assert s.log[|s.log|..] == [];
  }

  lemma TraceAside(c: Ctx, groups: seq<seq<nat>>, good: seq<nat>, s: State, next: State, e: State)
    requires InRange(c, good) && next == s.(trace := next.trace) && GroupsCommitted(c, groups, good, next, e)
    ensures GroupsCommitted(c, groups, good, s, e)
  {
  }

  lemma OneGroupRefines(c: Ctx, bad: set<nat>, errOf: seq<nat> -> Error, groups: seq<seq<nat>>, s: State, next: State)
    requires FailsOnBad(c, bad, errOf) && DistinctBatch(c)
    requires ValidGroups(c, groups) && |groups| == 1 && |s.results| == |c.msgs|
    requires InRange(c, Sort(Flat(groups))) && next == s.(trace := next.trace)
    requires HasBad(Unclaimed(c, Sort(Flat(groups)), s.processed), bad)
    ensures var err := errOf(Unclaimed(c, Sort(Flat(groups)), s.processed));
      var e := Ordered(c, groups[0], Some(err), false, next).0;
      && |e.results| == |c.msgs|
      && GroupsCommitted(c, groups, GoodOf(c, bad, s.processed, groups), s, e)
      && GroupsDone(c, bad, errOf, groups, s.processed, e.results)
  {
    hide FailsOnBad, DistinctBatch, Ordered, Unclaimed;
    OneGroup(c, groups);
    var group := groups[0];
    BadBeyondCut(c, bad, s.processed, group);
    var err := errOf(Unclaimed(c, group, s.processed));
    OrderedRefines(c, bad, errOf, group, Some(err), next);
    OneGroupCommitted(c, groups, bad, s, next, Ordered(c, group, Some(err), false, next).0);
  }

  lemma {:induction false} GroupHalvesRefine(c: Ctx, bad: set<nat>, errOf: seq<nat> -> Error, groups: seq<seq<nat>>, s: State)
    requires FailsOnBad(c, bad, errOf) && DistinctBatch(c)
    requires ValidGroups(c, groups) && |groups| > 1 && |s.results| == |c.msgs|
    ensures var middle := |groups| / 2;
      && ValidGroups(c, groups[..middle]) && ValidGroups(c, groups[middle..])
      && var e := BisectGroups(c, groups[middle..], BisectGroups(c, groups[..middle], s));
      && |e.results| == |c.msgs|
      && GroupsCommitted(c, groups, GoodOf(c, bad, s.processed, groups), s, e)
      && GroupsDone(c, bad, errOf, groups, s.processed, e.results)
    decreases |Flat(groups)|, s.budget, 0
  {
    hide FailsOnBad, DistinctBatch, Attempt, Unclaimed, Cut, BisectGroups, GoodOf, GroupDone, Project;
    var middle := |groups| / 2;
    var a, b := groups[..middle], groups[middle..];
    HalvesShrink(c, groups, middle);
    assert groups == a + b;
    KeysApart(c, groups, middle);
    GoodConcat(c, bad, s.processed, a, b);
    BisectGroupsRefines(c, bad, errOf, a, s);
    var half := BisectGroups(c, a, s);
    var ga := GoodOf(c, bad, s.processed, a);
    forall i | i in Flat(b) ensures i !in ga && i !in Flat(a) {
      if i in ga {
        GoodInside(c, bad, s.processed, a, i);
      }
    }
    GoodElsewhere(c, bad, s.processed, b, ga);
    BisectGroupsRefines(c, bad, errOf, b, half);
    var gb := GoodOf(c, bad, s.processed, b);
    forall i | i in gb ensures i !in ga {
      GoodInside(c, bad, s.processed, b, i);
    }
    ClaimsElsewhere(c, bad, s.processed, gb, ga);
    JoinGroups(c, bad, errOf, a, b, s, half, BisectGroups(c, b, half));
  }
}
