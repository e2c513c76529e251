/** The reference: one message at a time, stopping an order key at its first failure. Ordered bisection
    gives the same results, the same claims and, for each order key, the same effects in the same order. */
module OneByOne {
  import opened BatchTypes
  import opened Attempts
  import opened Groups
  import opened AttemptFacts
  import opened Bisection
  import opened Refinement
  import opened Sequential

  datatype Reference = Reference(processed: set<string>, log: seq<nat>, results: seq<Result>, failed: set<string>)

  /** Messages 0..n, each in a transaction of its own. */
  function OneByOne(c: Ctx, bad: set<nat>, errOf: seq<nat> -> Error, processed: set<string>, n: nat): (r: Reference)
    requires n <= |c.msgs|
    ensures InRange(c, r.log)
  {
    if n == 0 then Reference(processed, [], [], {})
    else
      var r := OneByOne(c, bad, errOf, processed, n - 1);
      var i := n - 1;
      if c.OrderKey(i) in r.failed then r.(results := r.results + [Blocked(c)])
      else if BadFresh(c, bad, r.processed, i) then
        r.(results := r.results + [Nak(errOf([i]))], failed := r.failed + {c.OrderKey(i)})
      else
        r.(results := r.results + [Ack()],
           processed := r.processed + Claims(c, [i]),
           log := r.log + if IsFresh(c, r.processed, i) then [i] else [])
  }

  /** An earlier message of i's order key is fresh and bad. */
  ghost predicate Spoiled(c: Ctx, bad: set<nat>, processed: set<string>, i: nat)
    requires i < |c.msgs|
  {
    exists j :: 0 <= j < i && c.OrderKey(j) == c.OrderKey(i) && BadFresh(c, bad, processed, j)
  }

  ghost predicate Succeeds(c: Ctx, bad: set<nat>, processed: set<string>, i: nat)
    requires i < |c.msgs|
  {
    !Spoiled(c, bad, processed, i) && !BadFresh(c, bad, processed, i)
  }

  ghost function Expected(c: Ctx, bad: set<nat>, errOf: seq<nat> -> Error, processed: set<string>, i: nat): Result
    requires i < |c.msgs|
  {
    if Spoiled(c, bad, processed, i) then Blocked(c)
    else if BadFresh(c, bad, processed, i) then Nak(errOf([i]))
    else Ack()
  }

  lemma {:induction false} ReferenceClaims(c: Ctx, bad: set<nat>, errOf: seq<nat> -> Error, processed: set<string>, n: nat)
    requires n <= |c.msgs| && DistinctBatch(c)
    ensures var r := OneByOne(c, bad, errOf, processed, n);
      && processed <= r.processed
      && (forall i :: n <= i < |c.msgs| ==> IsFresh(c, r.processed, i) == IsFresh(c, processed, i))
      && (!c.dedup ==> r.processed == processed)
  {
    if n > 0 {
      ReferenceClaims(c, bad, errOf, processed, n - 1);
    }
  }

  /** The order keys of the first n messages that are fresh and bad. */
  ghost predicate FailedUpTo(c: Ctx, bad: set<nat>, processed: set<string>, failed: set<string>, n: nat)
    requires n <= |c.msgs|
  {
    forall key :: key in failed <==> exists j :: 0 <= j < n && c.OrderKey(j) == key && BadFresh(c, bad, processed, j)
  }

  lemma FailedNext(c: Ctx, bad: set<nat>, processed: set<string>, failed: set<string>, i: nat)
    requires i < |c.msgs| && FailedUpTo(c, bad, processed, failed, i)
    ensures c.OrderKey(i) in failed <==> Spoiled(c, bad, processed, i)
    ensures FailedUpTo(c, bad, processed, if BadFresh(c, bad, processed, i) then failed + {c.OrderKey(i)} else failed, i + 1)
  {
    hide BadFresh;
  }

  lemma {:induction false} ReferenceAnswers(c: Ctx, bad: set<nat>, errOf: seq<nat> -> Error, processed: set<string>, n: nat)
    requires n <= |c.msgs| && DistinctBatch(c)
    ensures var r := OneByOne(c, bad, errOf, processed, n);
      && |r.results| == n && FailedUpTo(c, bad, processed, r.failed, n)
      && forall i :: 0 <= i < n ==> r.results[i] == Expected(c, bad, errOf, processed, i)
  {
    if n > 0 {
      hide BadFresh, Expected, Blocked, Nak, Ack, OneByOne, FailedUpTo;
      var i := n - 1;
      var r, e := OneByOne(c, bad, errOf, processed, i), OneByOne(c, bad, errOf, processed, i + 1);
      ReferenceAnswers(c, bad, errOf, processed, i);
      AnswerStep(c, bad, errOf, processed, i);
      FailedNext(c, bad, processed, r.failed, i);
      AnswerIsExpected(c, bad, errOf, processed, r, e, i);
      forall k | 0 <= k < n ensures e.results[k] == Expected(c, bad, errOf, processed, k) {
        if k < i {
          assert e.results[k] == r.results[k];
        }
      }
    }
  }

  lemma AnswerIsExpected(c: Ctx, bad: set<nat>, errOf: seq<nat> -> Error, processed: set<string>,
                         r: Reference, e: Reference, i: nat)
    requires i < |c.msgs| && |r.results| == i
    requires c.OrderKey(i) in r.failed <==> Spoiled(c, bad, processed, i)
    requires var spoiled, spoils := c.OrderKey(i) in r.failed, BadFresh(c, bad, processed, i);
      && e.results == r.results + [if spoiled then Blocked(c) else if spoils then Nak(errOf([i])) else Ack()]
      && e.failed == if spoiled || !spoils then r.failed else r.failed + {c.OrderKey(i)}
    ensures e.results[..i] == r.results && e.results[i] == Expected(c, bad, errOf, processed, i)
    ensures e.failed == if BadFresh(c, bad, processed, i) then r.failed + {c.OrderKey(i)} else r.failed
  {
    hide BadFresh, Spoiled, Blocked, Nak, Ack;
  }

  lemma AnswerStep(c: Ctx, bad: set<nat>, errOf: seq<nat> -> Error, processed: set<string>, i: nat)
    requires i < |c.msgs| && DistinctBatch(c)
    ensures var r, e := OneByOne(c, bad, errOf, processed, i), OneByOne(c, bad, errOf, processed, i + 1);
      var spoiled, spoils := c.OrderKey(i) in r.failed, BadFresh(c, bad, processed, i);
      && e.results == r.results + [if spoiled then Blocked(c) else if spoils then Nak(errOf([i])) else Ack()]
      && e.failed == if spoiled || !spoils then r.failed else r.failed + {c.OrderKey(i)}
  {
    hide BadFresh;
    FreshAtTurn(c, bad, errOf, processed, i);
  }

  lemma FreshAtTurn(c: Ctx, bad: set<nat>, errOf: seq<nat> -> Error, processed: set<string>, i: nat)
    requires i < |c.msgs| && DistinctBatch(c)
    ensures var r := OneByOne(c, bad, errOf, processed, i);
      && IsFresh(c, r.processed, i) == IsFresh(c, processed, i)
      && BadFresh(c, bad, r.processed, i) == BadFresh(c, bad, processed, i)
  {
    ReferenceClaims(c, bad, errOf, processed, i);
  }

  lemma SucceedsAtTurn(c: Ctx, bad: set<nat>, errOf: seq<nat> -> Error, processed: set<string>, i: nat)
    requires i < |c.msgs| && DistinctBatch(c)
    ensures var r := OneByOne(c, bad, errOf, processed, i);
      (c.OrderKey(i) !in r.failed && !BadFresh(c, bad, r.processed, i) <==> Succeeds(c, bad, processed, i))
      && IsFresh(c, r.processed, i) == IsFresh(c, processed, i)
  {
    hide OneByOne, IsFresh;
    ReferenceAnswers(c, bad, errOf, processed, i);
    FreshAtTurn(c, bad, errOf, processed, i);
    var r := OneByOne(c, bad, errOf, processed, i);
    assert c.OrderKey(i) in r.failed <==> Spoiled(c, bad, processed, i);
  }

  lemma OneStep(c: Ctx, bad: set<nat>, errOf: seq<nat> -> Error, processed: set<string>, i: nat)
    requires i < |c.msgs| && DistinctBatch(c)
    ensures var r, e := OneByOne(c, bad, errOf, processed, i), OneByOne(c, bad, errOf, processed, i + 1);
      if Succeeds(c, bad, processed, i) then
        && e.processed == r.processed + Claims(c, [i])
        && e.log == r.log + (if IsFresh(c, processed, i) then [i] else [])
      else e.processed == r.processed && e.log == r.log
  {
    hide IsFresh, Succeeds, Claims, BadFresh;
    SucceedsAtTurn(c, bad, errOf, processed, i);
  }

  /** log holds the fresh messages among the first n that succeed, in order. */
  ghost predicate LoggedUpTo(c: Ctx, bad: set<nat>, processed: set<string>, log: seq<nat>, n: nat)
    requires n <= |c.msgs|
  {
    && Ascending(log) && (forall i :: i in log ==> i < n)
    && forall i :: 0 <= i < n ==> (i in log <==> Succeeds(c, bad, processed, i) && IsFresh(c, processed, i))
  }

  lemma LoggedNext(c: Ctx, bad: set<nat>, processed: set<string>, log: seq<nat>, i: nat)
    requires i < |c.msgs| && LoggedUpTo(c, bad, processed, log, i)
    ensures LoggedUpTo(c, bad, processed,
                       if Succeeds(c, bad, processed, i) && IsFresh(c, processed, i) then log + [i] else log, i + 1)
  {
    hide IsFresh, Succeeds;
    assert forall p :: 0 <= p < |log| ==> log[p] in log;
    AppendAscends(log, i);
  }

  /** The keys of the first n messages that succeed. */
  ghost function ClaimedUpTo(c: Ctx, bad: set<nat>, processed: set<string>, n: nat): set<string>
    requires n <= |c.msgs|
  {
    set i | 0 <= i < n && Succeeds(c, bad, processed, i) :: c.Key(i)
  }

  lemma ClaimedNext(c: Ctx, bad: set<nat>, processed: set<string>, i: nat)
    requires i < |c.msgs|
    ensures ClaimedUpTo(c, bad, processed, i + 1) ==
      ClaimedUpTo(c, bad, processed, i) + (if Succeeds(c, bad, processed, i) then {c.Key(i)} else {})
  {
    hide Succeeds;
  }

  lemma {:induction false} ReferenceEffects(c: Ctx, bad: set<nat>, errOf: seq<nat> -> Error, processed: set<string>, n: nat)
    requires n <= |c.msgs| && DistinctBatch(c)
    ensures var r := OneByOne(c, bad, errOf, processed, n);
      && LoggedUpTo(c, bad, processed, r.log, n)
      && (c.dedup ==> r.processed == processed + ClaimedUpTo(c, bad, processed, n))
  {
    if n > 0 {
      hide IsFresh, OneByOne, Succeeds, LoggedUpTo, ClaimedUpTo;
      var i := n - 1;
      ReferenceEffects(c, bad, errOf, processed, i);
      OneStep(c, bad, errOf, processed, i);
      var r := OneByOne(c, bad, errOf, processed, i);
      assert Keys(c, [i]) == {c.Key(i)};
      LoggedNext(c, bad, processed, r.log, i);
      ClaimedNext(c, bad, processed, i);
      assert r.log + [] == r.log;
    }
  }

  /** The groups of a batch, seen from one message: its group holds every message of its order key. */
  lemma InGroup(c: Ctx, i: nat) returns (p: nat, k: nat)
    requires i < |c.msgs|
    ensures var groups := GroupsOf(c, |c.msgs|);
      && ValidGroups(c, groups) && p < |groups| && k < |groups[p]| && groups[p][k] == i
      && (forall j :: 0 <= j < |c.msgs| && c.OrderKey(j) == c.OrderKey(i) ==> j in groups[p])
  {
    var groups := GroupsOf(c, |c.msgs|);
    GroupsOfValid(c, |c.msgs|);
    FlatMember(groups, i);
    p :| 0 <= p < |groups| && i in groups[p];
    k := IndexOf(groups[p], i);
    forall j | 0 <= j < |c.msgs| && c.OrderKey(j) == c.OrderKey(i) ensures j in groups[p] {
      FlatMember(groups, j);
      var q :| 0 <= q < |groups| && j in groups[q];
      SameGroup(c, groups, p, q, i, j);
    }
  }

  /** The cut of a group separates the messages that succeed. */
  lemma CutMeans(c: Ctx, bad: set<nat>, processed: set<string>, group: seq<nat>, k: nat)
    requires ValidGroup(c, group) && k < |group|
    requires forall j :: 0 <= j < |c.msgs| && c.OrderKey(j) == c.OrderKey(group[k]) ==> j in group
    ensures var cut := Cut(c, bad, processed, group);
      && (Spoiled(c, bad, processed, group[k]) <==> cut < k)
      && (BadFresh(c, bad, processed, group[k]) && !Spoiled(c, bad, processed, group[k]) <==> cut == k)
  {
    var cut := Cut(c, bad, processed, group);
    CutIsFirst(c, bad, processed, group);
    if cut < k {
      assert group[cut] < group[k] && c.OrderKey(group[cut]) == c.OrderKey(group[k]);
    }
    if j :| 0 <= j < group[k] && c.OrderKey(j) == c.OrderKey(group[k]) && BadFresh(c, bad, processed, j) {
      var q := IndexOf(group, j);
      assert q < k;
    }
  }

  lemma GoodMeans(c: Ctx, bad: set<nat>, processed: set<string>, i: nat)
    requires i < |c.msgs| && ValidGroups(c, GroupsOf(c, |c.msgs|))
    ensures i in GoodOf(c, bad, processed, GroupsOf(c, |c.msgs|)) <==> Succeeds(c, bad, processed, i)
  {
    var groups := GroupsOf(c, |c.msgs|);
    var p, k := InGroup(c, i);
    CutMeans(c, bad, processed, groups[p], k);
    var cut := Cut(c, bad, processed, groups[p]);
    if k < cut {
      assert groups[p][..cut][k] == i;
      GoodCovers(c, bad, processed, groups, p, i);
    }
    if i in GoodOf(c, bad, processed, groups) {
      GoodInside(c, bad, processed, groups, i);
      var q :| 0 <= q < |groups| && i in groups[q][..Cut(c, bad, processed, groups[q])];
      assert i in groups[q] && i in groups[p];
      SameGroup(c, groups, p, q, i, i);
      var r := IndexOf(groups[p][..cut], i);
      assert groups[p][r] == groups[p][k];
      assert r == k;
    }
  }

  /** The claims of the good prefixes and of the reference. */
  lemma SameClaims(c: Ctx, bad: set<nat>, processed: set<string>)
    requires ValidGroups(c, GroupsOf(c, |c.msgs|))
    ensures Keys(c, GoodOf(c, bad, processed, GroupsOf(c, |c.msgs|)))
      == ClaimedUpTo(c, bad, processed, |c.msgs|)
  {
    var good := GoodOf(c, bad, processed, GroupsOf(c, |c.msgs|));
    forall i: nat | i < |c.msgs| ensures i in good <==> Succeeds(c, bad, processed, i) {
      GoodMeans(c, bad, processed, i);
    }
    assert forall i :: i in good ==> 0 <= i < |c.msgs|;
  }

  lemma SameEffects(c: Ctx, bad: set<nat>, errOf: seq<nat> -> Error, processed: set<string>, key: string)
    requires DistinctBatch(c) && ValidGroups(c, GroupsOf(c, |c.msgs|))
    ensures Project(c, Unclaimed(c, GoodOf(c, bad, processed, GroupsOf(c, |c.msgs|)), processed), key)
      == Project(c, OneByOne(c, bad, errOf, processed, |c.msgs|).log, key)
  {
    var groups := GroupsOf(c, |c.msgs|);
    var good := GoodOf(c, bad, processed, groups);
    var log := OneByOne(c, bad, errOf, processed, |c.msgs|).log;
    ReferenceEffects(c, bad, errOf, processed, |c.msgs|);
    ProjectAscends(c, log, key);
    GoodAscends(c, bad, processed, groups, key);
    ProjectUnclaimed(c, good, processed, key);
    UnclaimedAscends(c, Project(c, good, key), processed);
    var effects := Unclaimed(c, good, processed);
    forall i ensures i in effects <==> i in log {
      if i in effects || i in log {
        assert 0 <= i < |c.msgs|;
        UnclaimedMember(c, good, processed, i);
        GoodMeans(c, bad, processed, i);
      }
    }
    SameProjection(c, effects, log, key);
  }

  /** Ordered bisection refines one-at-a-time processing. */
  lemma OrderedRefinesOneByOne(c: Ctx, bad: set<nat>, errOf: seq<nat> -> Error, processed: set<string>, budget: nat)
    requires FailsOnBad(c, bad, errOf) && DistinctBatch(c) && c.ordered
    ensures var e, r := Handle(c, processed, budget), OneByOne(c, bad, errOf, processed, |c.msgs|);
      && e.results == r.results
      && e.processed == r.processed
      && InRange(c, e.log) && (forall key :: Project(c, e.log, key) == Project(c, r.log, key))
  {
    hide FailsOnBad, DistinctBatch, BisectGroups, Unclaimed, GoodOf, Project, OneByOne;
    var s := Initial(c, processed, budget);
    var groups := GroupsOf(c, |c.msgs|);
    var r := OneByOne(c, bad, errOf, processed, |c.msgs|);
    ReferenceAnswers(c, bad, errOf, processed, |c.msgs|);
    if c.msgs == [] {
      EmptyReference(c, bad, errOf, processed);
    } else {
      GroupsOfValid(c, |c.msgs|);
      BisectGroupsRefines(c, bad, errOf, groups, s);
      var e := BisectGroups(c, groups, s);
      var good := GoodOf(c, bad, processed, groups);
      forall i | 0 <= i < |c.msgs| ensures e.results[i] == r.results[i] {
        AnswerMatches(c, bad, errOf, processed, e.results, i);
      }
      SameClaims(c, bad, processed);
      ReferenceEffects(c, bad, errOf, processed, |c.msgs|);
      ReferenceClaims(c, bad, errOf, processed, |c.msgs|);
      assert e.log[|s.log|..] == e.log;
      forall key ensures Project(c, e.log, key) == Project(c, r.log, key) {
        SameEffects(c, bad, errOf, processed, key);
      }
    }
  }

  lemma EmptyReference(c: Ctx, bad: set<nat>, errOf: seq<nat> -> Error, processed: set<string>)
    requires c.msgs == []
    ensures OneByOne(c, bad, errOf, processed, |c.msgs|) == Reference(processed, [], [], {})
  {
  }

  lemma AnswerMatches(c: Ctx, bad: set<nat>, errOf: seq<nat> -> Error, processed: set<string>, results: seq<Result>, i: nat)
    requires i < |c.msgs| == |results| && ValidGroups(c, GroupsOf(c, |c.msgs|))
    requires GroupsDone(c, bad, errOf, GroupsOf(c, |c.msgs|), processed, results)
    ensures results[i] == Expected(c, bad, errOf, processed, i)
  {
    var groups := GroupsOf(c, |c.msgs|);
    var p, k := InGroup(c, i);
    CutMeans(c, bad, processed, groups[p], k);
    assert GroupDone(c, errOf, groups[p], Cut(c, bad, processed, groups[p]), results);
    assert results[groups[p][k]] == Answer(c, errOf, groups[p], Cut(c, bad, processed, groups[p]), k);
  }

  /** Index bisection acks exactly the messages that are not fresh and bad, and commits the fresh ones in order. */
  lemma {:induction false} BisectRefines(c: Ctx, bad: set<nat>, errOf: seq<nat> -> Error, subset: seq<nat>, s: State)
    requires FailsOnBad(c, bad, errOf) && DistinctBatch(c)
    requires InRange(c, subset) && Ascending(subset) && subset != [] && |s.results| == |c.msgs|
    ensures var e := Bisect(c, subset, s);
      BisectDone(c, bad, errOf, subset, s, e)
    decreases |subset|, s.budget
  {
    hide FailsOnBad, DistinctBatch, Attempt, BisectDone, Unclaimed;
    AscendsNoRepeat(subset);
    AttemptOnBad(c, bad, errOf, subset, s);
    var (next, outcome) := Attempt(c, subset, s);
    var indexes := Unclaimed(c, subset, s.processed);
    if outcome.Committed? {
      WholeDone(c, bad, errOf, subset, s, next);
    } else {
      NeverTransient(c, bad, errOf, indexes);
      if |subset| == 1 {
        SingleDone(c, bad, errOf, subset, s, next);
      } else {
        var middle := |subset| / 2;
        var a, b := subset[..middle], subset[middle..];
        Apart(subset, middle);
        SliceInRange(c, subset, middle);
        BisectRefines(c, bad, errOf, a, next);
        var half := Bisect(c, a, next);
        DoneShape(c, bad, errOf, a, next, half);
        BisectRefines(c, bad, errOf, b, half);
        JoinDone(c, bad, errOf, a, b, s, next, half, Bisect(c, b, half));
      }
    }
  }

  /** The messages of subset that are not fresh and bad. */
  function Good(c: Ctx, bad: set<nat>, subset: seq<nat>, processed: set<string>): (r: seq<nat>)
    requires InRange(c, subset)
    ensures InRange(c, r) && forall i :: i in r ==> i in subset
  {
    if subset == [] then []
    else
      Good(c, bad, subset[..|subset| - 1], processed) +
      (if BadFresh(c, bad, processed, subset[|subset| - 1]) then [] else [subset[|subset| - 1]])
  }

  ghost predicate BisectDone(c: Ctx, bad: set<nat>, errOf: seq<nat> -> Error, subset: seq<nat>, s: State, e: State)
    requires InRange(c, subset) && |s.results| == |c.msgs|
  {
    var good := Good(c, bad, subset, s.processed);
    && |e.results| == |s.results|
    && (forall i :: 0 <= i < |s.results| ==>
          e.results[i] == if i !in subset then s.results[i]
                          else if BadFresh(c, bad, s.processed, i) then Nak(errOf([i])) else Ack())
    && e.processed == s.processed + Claims(c, good)
    && e.log == s.log + Unclaimed(c, good, s.processed)
  }

  lemma DoneShape(c: Ctx, bad: set<nat>, errOf: seq<nat> -> Error, subset: seq<nat>, s: State, e: State)
    requires InRange(c, subset) && |s.results| == |c.msgs| && BisectDone(c, bad, errOf, subset, s, e)
    ensures |e.results| == |c.msgs|
  {
  }

  lemma {:induction false} GoodAll(c: Ctx, bad: set<nat>, subset: seq<nat>, processed: set<string>)
    requires InRange(c, subset) && !HasBad(Unclaimed(c, subset, processed), bad)
    ensures Good(c, bad, subset, processed) == subset
    ensures forall i :: i in subset ==> !BadFresh(c, bad, processed, i)
  {
    forall i | i in subset ensures !BadFresh(c, bad, processed, i) {
      UnclaimedMember(c, subset, processed, i);
    }
    GoodKeeps(c, bad, subset, processed);
  }

  lemma {:induction false} GoodKeeps(c: Ctx, bad: set<nat>, subset: seq<nat>, processed: set<string>)
    requires InRange(c, subset) && forall i :: i in subset ==> !BadFresh(c, bad, processed, i)
    ensures Good(c, bad, subset, processed) == subset
  {
    if subset != [] {
      GoodKeeps(c, bad, subset[..|subset| - 1], processed);
      assert subset == subset[..|subset| - 1] + [subset[|subset| - 1]];
    }
  }

  lemma WholeDone(c: Ctx, bad: set<nat>, errOf: seq<nat> -> Error, subset: seq<nat>, s: State, next: State)
    requires InRange(c, subset) && |s.results| == |c.msgs| && !HasBad(Unclaimed(c, subset, s.processed), bad)
    requires next == s.(processed := s.processed + Claims(c, subset),
                        log := s.log + Unclaimed(c, subset, s.processed), trace := next.trace)
    ensures BisectDone(c, bad, errOf, subset, s, Record(next, subset, map[]))
  {
    GoodAll(c, bad, subset, s.processed);
  }

  lemma SingleDone(c: Ctx, bad: set<nat>, errOf: seq<nat> -> Error, subset: seq<nat>, s: State, next: State)
    requires InRange(c, subset) && |subset| == 1 && |s.results| == |c.msgs| && next == s.(trace := next.trace)
    requires HasBad(Unclaimed(c, subset, s.processed), bad)
    ensures BisectDone(c, bad, errOf, subset, s,
                       Write(next, subset, i => Nak(errOf(Unclaimed(c, subset, s.processed)))))
  {
    hide HasBad, Unclaimed, Good, BadFresh;
    var i := subset[0];
    assert subset == [i];
    SingleIsBad(c, bad, i, s.processed);
    assert Claims(c, []) == {};
    assert s.log + [] == s.log;
  }

  lemma SingleIsBad(c: Ctx, bad: set<nat>, i: nat, processed: set<string>)
    requires i < |c.msgs| && HasBad(Unclaimed(c, [i], processed), bad)
    ensures Unclaimed(c, [i], processed) == [i] && BadFresh(c, bad, processed, i) && Good(c, bad, [i], processed) == []
    ensures Unclaimed(c, [], processed) == []
  {
    OneMessage(c, i, processed, "");
    assert [i][..|[i]| - 1] == [];
  }

  lemma {:induction false} GoodConcatenates(c: Ctx, bad: set<nat>, a: seq<nat>, b: seq<nat>, processed: set<string>)
    requires InRange(c, a) && InRange(c, b)
    ensures Good(c, bad, a + b, processed) == Good(c, bad, a, processed) + Good(c, bad, b, processed)
  {
    if b == [] {
      assert a + b == a;
    } else {
      var init, last := b[..|b| - 1], b[|b| - 1];
      assert (a + b)[..|a + b| - 1] == a + init;
      GoodConcatenates(c, bad, a, init, processed);
    }
  }

  lemma {:induction false} SameGood(c: Ctx, bad: set<nat>, b: seq<nat>, p: set<string>, q: set<string>)
    requires InRange(c, b) && forall i :: i in b ==> IsFresh(c, p, i) == IsFresh(c, q, i)
    ensures Good(c, bad, b, p) == Good(c, bad, b, q)
  {
    if b != [] {
      SameGood(c, bad, b[..|b| - 1], p, q);
      assert b[|b| - 1] in b;
    }
  }

  lemma FreshElsewhere(c: Ctx, p: set<string>, others: seq<nat>, i: nat)
    requires InRange(c, others) && DistinctBatch(c) && i < |c.msgs| && i !in others
    ensures IsFresh(c, p + Claims(c, others), i) == IsFresh(c, p, i)
  {
    if c.dedup {
      forall j | j in others ensures c.Key(j) != c.Key(i) {
        assert j != i;
      }
    }
  }

  lemma JoinDone(c: Ctx, bad: set<nat>, errOf: seq<nat> -> Error, a: seq<nat>, b: seq<nat>,
                 s: State, next: State, m: State, e: State)
    requires InRange(c, a) && InRange(c, b) && |s.results| == |c.msgs| == |m.results| && DistinctBatch(c)
    requires next == s.(trace := next.trace) && forall i :: i in b ==> i !in a
    requires BisectDone(c, bad, errOf, a, next, m) && BisectDone(c, bad, errOf, b, m, e)
    ensures InRange(c, a + b) && BisectDone(c, bad, errOf, a + b, s, e)
  {
    hide Claims, Unclaimed, Good, DistinctBatch;
    var ga := Good(c, bad, a, s.processed);
    forall i | i in b ensures IsFresh(c, m.processed, i) == IsFresh(c, s.processed, i) {
      FreshElsewhere(c, s.processed, ga, i);
    }
    SameGood(c, bad, b, m.processed, s.processed);
    var gb := Good(c, bad, b, s.processed);
    GoodConcatenates(c, bad, a, b, s.processed);
    SameFreshness(c, bad, m.processed, s.processed, gb);
    UnclaimedConcat(c, ga, gb, s.processed);
    ClaimsConcat(c, ga, gb);
  }

  lemma ClaimsConcat(c: Ctx, a: seq<nat>, b: seq<nat>)
    requires InRange(c, a) && InRange(c, b)
    ensures InRange(c, a + b) && Claims(c, a + b) == Claims(c, a) + Claims(c, b)
  {
  }

  /** Plain bisect: exactly the messages that are not fresh and bad are acked, each bad one is nak'ed with
      its own error, and the fresh good ones are committed once, in batch order. */
  lemma PlainBisectAcksTheGood(c: Ctx, bad: set<nat>, errOf: seq<nat> -> Error, processed: set<string>, budget: nat)
    requires FailsOnBad(c, bad, errOf) && DistinctBatch(c) && !c.ordered && c.msgs != []
    ensures var e := Handle(c, processed, budget);
      && |e.results| == |c.msgs|
      && (forall i :: 0 <= i < |c.msgs| ==>
            e.results[i] == if BadFresh(c, bad, processed, i) then Nak(errOf([i])) else Ack())
      && Ascending(e.log)
      && (forall i: nat :: i in e.log <==> i < |c.msgs| && IsFresh(c, processed, i) && i !in bad)
      && e.processed == processed + set i | 0 <= i < |c.msgs| && c.dedup && !BadFresh(c, bad, processed, i) :: c.Key(i)
  {
    hide FailsOnBad, DistinctBatch, Bisect, Good, Unclaimed, BadFresh, IsFresh;
    var all := All(|c.msgs|);
    AllMember(|c.msgs|);
    BisectRefines(c, bad, errOf, all, Initial(c, processed, budget));
    GoodBatch(c, bad, processed);
    assert Handle(c, processed, budget).log == Unclaimed(c, Good(c, bad, all, processed), processed);
  }

  lemma GoodBatch(c: Ctx, bad: set<nat>, processed: set<string>)
    ensures var good := Good(c, bad, All(|c.msgs|), processed);
      && Ascending(Unclaimed(c, good, processed))
      && (forall i: nat :: i in Unclaimed(c, good, processed) <==> i < |c.msgs| && IsFresh(c, processed, i) && i !in bad)
      && Claims(c, good) == set i | 0 <= i < |c.msgs| && c.dedup && !BadFresh(c, bad, processed, i) :: c.Key(i)
  {
    var all := All(|c.msgs|);
    var good := Good(c, bad, all, processed);
    AllMember(|c.msgs|);
    GoodMembers(c, bad, all, processed);
    UnclaimedAscends(c, good, processed);
    var log := Unclaimed(c, good, processed);
    forall i: nat ensures i in log <==> i < |c.msgs| && IsFresh(c, processed, i) && i !in bad {
      if i < |c.msgs| {
        UnclaimedMember(c, good, processed, i);
      }
    }
  }

  lemma {:induction false} GoodMembers(c: Ctx, bad: set<nat>, subset: seq<nat>, processed: set<string>)
    requires InRange(c, subset) && Ascending(subset)
    ensures forall i: nat :: i in Good(c, bad, subset, processed) <==> i in subset && !BadFresh(c, bad, processed, i)
    ensures Ascending(Good(c, bad, subset, processed))
  {
    if subset != [] {
      var init, last := subset[..|subset| - 1], subset[|subset| - 1];
      GoodMembers(c, bad, init, processed);
      var rest := Good(c, bad, init, processed);
      assert subset == init + [last];
      forall p | 0 <= p < |rest| ensures rest[p] < last {
        assert rest[p] in rest;
      }
      AppendAscends(rest, last);
    }
  }
}
