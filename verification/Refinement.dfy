/** Against a handler that fails exactly on selections with a bad message, ordered bisection does what
    processing the messages one at a time does. */
module Refinement {
  import opened BatchTypes
  import opened Attempts
  import opened Groups
  import opened AttemptFacts
  import opened Bisection

  predicate HasBad(selection: seq<nat>, bad: set<nat>) {
    exists i :: i in selection && i in bad
  }

  /** Apply fails exactly when its selection holds a bad message, and nothing else goes wrong. */
  ghost predicate FailsOnBad(c: Ctx, bad: set<nat>, errOf: seq<nat> -> Error) {
    && !c.perMessage
    && (forall t :: c.oracle.around(t) == Surroundings({}, None, None, None))
    && (forall t, selection :: c.oracle.apply(t, selection)
          == if HasBad(selection, bad) then Refused(errOf(selection)) else Answered([]))
    && (forall selection :: !c.transient(errOf(selection)))
  }

  ghost predicate DistinctBatch(c: Ctx) {
    c.dedup ==> forall i, j :: 0 <= i < j < |c.msgs| ==> c.Key(i) != c.Key(j)
  }

  predicate IsFresh(c: Ctx, processed: set<string>, i: nat)
    requires i < |c.msgs|
  {
    !c.dedup || c.Key(i) !in processed
  }

  predicate BadFresh(c: Ctx, bad: set<nat>, processed: set<string>, i: nat)
    requires i < |c.msgs|
  {
    i in bad && IsFresh(c, processed, i)
  }

  function Unclaimed(c: Ctx, idxs: seq<nat>, processed: set<string>): (r: seq<nat>)
    requires InRange(c, idxs)
    ensures InRange(c, r)
  {
    if idxs == [] then []
    else
      Unclaimed(c, idxs[..|idxs| - 1], processed) +
      (if IsFresh(c, processed, idxs[|idxs| - 1]) then [idxs[|idxs| - 1]] else [])
  }

  /** The position of the first fresh bad message, or the length. */
  function Cut(c: Ctx, bad: set<nat>, processed: set<string>, group: seq<nat>): (cut: nat)
    requires InRange(c, group)
    ensures cut <= |group|
  {
    if group == [] || BadFresh(c, bad, processed, group[0]) then 0
    else 1 + Cut(c, bad, processed, group[1..])
  }

  /** What a commit of idxs adds to the table. */
  function Claims(c: Ctx, idxs: seq<nat>): set<string>
    requires InRange(c, idxs)
  {
    if c.dedup then Keys(c, idxs) else {}
  }

  lemma {:induction false} UnclaimedMember(c: Ctx, idxs: seq<nat>, processed: set<string>, i: nat)
    requires InRange(c, idxs) && i < |c.msgs|
    ensures i in Unclaimed(c, idxs, processed) <==> i in idxs && IsFresh(c, processed, i)
  {
    if idxs != [] {
      UnclaimedMember(c, idxs[..|idxs| - 1], processed, i);
      assert idxs == idxs[..|idxs| - 1] + [idxs[|idxs| - 1]];
    }
  }

  lemma {:induction false} UnclaimedConcat(c: Ctx, a: seq<nat>, b: seq<nat>, processed: set<string>)
    requires InRange(c, a) && InRange(c, b)
    ensures Unclaimed(c, a + b, processed) == Unclaimed(c, a, processed) + Unclaimed(c, b, processed)
  {
    if b == [] {
      assert a + b == a;
    } else {
      var init, last := b[..|b| - 1], b[|b| - 1];
      assert (a + b)[..|a + b| - 1] == a + init;
      UnclaimedConcat(c, a, init, processed);
    }
  }

  lemma {:induction false} UnclaimedAscends(c: Ctx, idxs: seq<nat>, processed: set<string>)
    requires InRange(c, idxs) && Ascending(idxs)
    ensures Ascending(Unclaimed(c, idxs, processed))
  {
    if idxs != [] {
      var init, last := idxs[..|idxs| - 1], idxs[|idxs| - 1];
      UnclaimedAscends(c, init, processed);
      var rest := Unclaimed(c, init, processed);
      forall p | 0 <= p < |rest| ensures rest[p] < last {
        UnclaimedMember(c, init, processed, rest[p]);
        assert rest[p] in rest;
      }
      AppendAscends(rest, last);
    }
  }

  lemma {:induction false} FreshIsUnclaimedOnly(c: Ctx, subset: seq<nat>, processed: set<string>)
    requires InRange(c, subset) && NoRepeat(subset) && DistinctBatch(c)
    ensures Fresh(c, subset, processed) == Unclaimed(c, subset, processed)
  {
    if subset != [] {
      var init, last := subset[..|subset| - 1], subset[|subset| - 1];
      FreshIsUnclaimedOnly(c, init, processed);
      assert subset == init + [last];
      assert last !in init;
      if c.dedup {
        forall j | j in init ensures c.Key(j) != c.Key(last) {
          assert j != last;
        }
      }
    }
  }

  lemma {:induction false} AllAnswered(indexes: seq<nat>)
    ensures AckedOf(indexes, map[]) == indexes
  {
    if indexes != [] {
      AllAnswered(indexes[..|indexes| - 1]);
      assert indexes == indexes[..|indexes| - 1] + [indexes[|indexes| - 1]];
    }
  }

  lemma ReplyOnBad(c: Ctx, bad: set<nat>, errOf: seq<nat> -> Error, t: nat, indexes: seq<nat>)
    requires FailsOnBad(c, bad, errOf)
    ensures c.oracle.around(t) == Surroundings({}, None, None, None) && !c.perMessage
    ensures c.oracle.apply(t, indexes) == if HasBad(indexes, bad) then Refused(errOf(indexes)) else Answered([])
  {
  }

  lemma NoneBad(bad: set<nat>)
    ensures !HasBad([], bad)
  {
  }

  lemma EndingOnBad(c: Ctx, bad: set<nat>, errOf: seq<nat> -> Error, subset: seq<nat>, processed: set<string>, t: nat)
    requires FailsOnBad(c, bad, errOf) && DistinctBatch(c)
    requires InRange(c, subset) && NoRepeat(subset)
    ensures var indexes := Unclaimed(c, subset, processed);
      Ending(c, subset, processed, t) ==
      if HasBad(indexes, bad) then RolledBack(Fault(errOf(indexes))) else Committed(map[])
  {
    hide FailsOnBad, DistinctBatch, HasBad, Fresh, Unclaimed;
    FreshIsUnclaimedOnly(c, subset, processed);
    ReplyOnBad(c, bad, errOf, t, Unclaimed(c, subset, processed));
    NoneBad(bad);
  }

  /** An attempt under FailsOnBad. */
  lemma AttemptOnBad(c: Ctx, bad: set<nat>, errOf: seq<nat> -> Error, subset: seq<nat>, s: State)
    requires FailsOnBad(c, bad, errOf) && DistinctBatch(c)
    requires InRange(c, subset) && NoRepeat(subset)
    ensures var (next, outcome) := Attempt(c, subset, s);
      var indexes := Unclaimed(c, subset, s.processed);
      if HasBad(indexes, bad) then
        && outcome == RolledBack(Fault(errOf(indexes)))
        && next == s.(trace := s.trace + [Entry(subset, outcome)])
      else
        && outcome == Committed(map[])
        && next == s.(processed := s.processed + Claims(c, subset),
                      log := s.log + indexes,
                      trace := s.trace + [Entry(subset, outcome)])
  {
    hide FailsOnBad, DistinctBatch, HasBad, Fresh, Unclaimed, Ending, AckedOf;
    FreshIsUnclaimedOnly(c, subset, s.processed);
    ReplyOnBad(c, bad, errOf, |s.trace|, []);
    assert Seen(c, s) == s.processed;
    EndingOnBad(c, bad, errOf, subset, s.processed, |s.trace|);
    AllAnswered(Unclaimed(c, subset, s.processed));
  }

  lemma {:induction false} CutSplits(c: Ctx, bad: set<nat>, processed: set<string>, a: seq<nat>, b: seq<nat>)
    requires InRange(c, a) && InRange(c, b)
    ensures InRange(c, a + b)
    ensures Cut(c, bad, processed, a + b)
      == if Cut(c, bad, processed, a) < |a| then Cut(c, bad, processed, a) else |a| + Cut(c, bad, processed, b)
  {
    if a == [] {
      assert a + b == b;
    } else {
      CutSplits(c, bad, processed, a[1..], b);
      assert (a + b)[0] == a[0] && (a + b)[1..] == a[1..] + b;
    }
  }

  /** Cut is the first fresh bad position. */
  lemma {:induction false} CutIsFirst(c: Ctx, bad: set<nat>, processed: set<string>, group: seq<nat>)
    requires InRange(c, group)
    ensures var cut := Cut(c, bad, processed, group);
      && (forall p :: 0 <= p < cut ==> !BadFresh(c, bad, processed, group[p]))
      && (cut < |group| ==> BadFresh(c, bad, processed, group[cut]))
  {
    if group != [] && !BadFresh(c, bad, processed, group[0]) {
      CutIsFirst(c, bad, processed, group[1..]);
      var rest := group[1..];
      assert forall p :: 0 < p < |group| ==> group[p] == rest[p - 1];
    }
  }

  lemma BadBeyondCut(c: Ctx, bad: set<nat>, processed: set<string>, group: seq<nat>)
    requires InRange(c, group)
    ensures HasBad(Unclaimed(c, group, processed), bad) <==> Cut(c, bad, processed, group) < |group|
  {
    CutIsFirst(c, bad, processed, group);
    var cut := Cut(c, bad, processed, group);
    if cut < |group| {
      UnclaimedMember(c, group, processed, group[cut]);
    }
    if i :| i in Unclaimed(c, group, processed) && i in bad {
      UnclaimedInRange(c, group, processed, i);
      UnclaimedMember(c, group, processed, i);
      var p := IndexOf(group, i);
      assert BadFresh(c, bad, processed, group[p]);
    }
  }

  lemma UnclaimedInRange(c: Ctx, group: seq<nat>, processed: set<string>, i: nat)
    requires InRange(c, group) && i in Unclaimed(c, group, processed)
    ensures i < |c.msgs|
  {
  }

  /** Claims of other messages change neither freshness, cut nor selection. */
  lemma {:induction false} ClaimsElsewhere(c: Ctx, bad: set<nat>, processed: set<string>, group: seq<nat>, others: seq<nat>)
    requires InRange(c, group) && InRange(c, others) && DistinctBatch(c)
    requires forall i :: i in group ==> i !in others
    ensures Cut(c, bad, processed + Claims(c, others), group) == Cut(c, bad, processed, group)
    ensures Unclaimed(c, group, processed + Claims(c, others)) == Unclaimed(c, group, processed)
  {
    forall i | i in group ensures IsFresh(c, processed + Claims(c, others), i) == IsFresh(c, processed, i) {
      if c.dedup {
        forall j | j in others ensures c.Key(j) != c.Key(i) {
          assert j != i;
        }
      }
    }
    SameFreshness(c, bad, processed, processed + Claims(c, others), group);
  }

  lemma {:induction false} SameFreshness(c: Ctx, bad: set<nat>, p: set<string>, q: set<string>, group: seq<nat>)
    requires InRange(c, group) && forall i :: i in group ==> IsFresh(c, p, i) == IsFresh(c, q, i)
    ensures Cut(c, bad, p, group) == Cut(c, bad, q, group)
    ensures Unclaimed(c, group, p) == Unclaimed(c, group, q)
  {
    if group != [] {
      SameCut(c, bad, p, q, group[1..]);
      assert group[0] in group;
      SameFreshness(c, bad, p, q, group[..|group| - 1]);
      assert group[|group| - 1] in group;
    }
  }

  lemma {:induction false} SameCut(c: Ctx, bad: set<nat>, p: set<string>, q: set<string>, group: seq<nat>)
    requires InRange(c, group) && forall i :: i in group ==> IsFresh(c, p, i) == IsFresh(c, q, i)
    ensures Cut(c, bad, p, group) == Cut(c, bad, q, group)
  {
    if group != [] {
      SameCut(c, bad, p, q, group[1..]);
      assert group[0] in group;
    }
  }

  /** The answer the k-th message of a group must get. */
  ghost function Answer(c: Ctx, errOf: seq<nat> -> Error, group: seq<nat>, cut: nat, k: nat): Result
    requires k < |group|
  {
    if k < cut then Ack() else if k == cut then Nak(errOf([group[k]])) else Blocked(c)
  }

  ghost predicate GroupDone(c: Ctx, errOf: seq<nat> -> Error, group: seq<nat>, cut: nat, results: seq<Result>)
    requires InRange(c, group) && |results| == |c.msgs|
  {
    forall k :: 0 <= k < |group| ==> results[group[k]] == Answer(c, errOf, group, cut, k)
  }

  /** What is left of the state when the good prefix of one group was committed. */
  ghost predicate PrefixCommitted(c: Ctx, group: seq<nat>, cut: nat, s: State, e: State)
    requires InRange(c, group) && cut <= |group|
  {
    && e.processed == s.processed + Claims(c, group[..cut])
    && e.log == s.log + Unclaimed(c, group[..cut], s.processed)
    && |e.results| == |s.results| && e.budget == s.budget
    && (forall i :: 0 <= i < |s.results| && i !in group ==> e.results[i] == s.results[i])
  }

  lemma SingleBad(c: Ctx, bad: set<nat>, errOf: seq<nat> -> Error, i: nat, s: State)
    requires i < |c.msgs| == |s.results| && BadFresh(c, bad, s.processed, i)
    ensures var err := errOf(Unclaimed(c, [i], s.processed));
      var e := Write(s, [i], _ => Nak(err));
      PrefixCommitted(c, [i], 0, s, e) && GroupDone(c, errOf, [i], 0, e.results)
  {
    assert [i][..0] == [];
    assert [i][..|[i]| - 1] == [];
    assert Unclaimed(c, [i], s.processed) == [i];
  }

  lemma AllGood(c: Ctx, errOf: seq<nat> -> Error, group: seq<nat>, s: State, next: State)
    requires InRange(c, group) && |s.results| == |c.msgs|
    requires next.processed == s.processed + Claims(c, group) && next.log == s.log + Unclaimed(c, group, s.processed)
    requires next.results == s.results && next.budget == s.budget
    ensures var e := Record(next, group, map[]);
      PrefixCommitted(c, group, |group|, s, e) && GroupDone(c, errOf, group, |group|, e.results)
  {
    assert group[..|group|] == group;
    assert forall k :: 0 <= k < |group| ==> group[k] in group;
  }

  lemma TraceIrrelevant(c: Ctx, group: seq<nat>, cut: nat, s: State, next: State, e: State)
    requires InRange(c, group) && cut <= |group| && next == s.(trace := next.trace)
    requires PrefixCommitted(c, group, cut, next, e)
    ensures PrefixCommitted(c, group, cut, s, e)
  {
  }

  /** ordered commits the longest good prefix, naks the first bad message and holds the rest. */
  lemma {:induction false} OrderedRefines(c: Ctx, bad: set<nat>, errOf: seq<nat> -> Error, group: seq<nat>,
                                          known: Option<Error>, s: State)
    requires FailsOnBad(c, bad, errOf) && DistinctBatch(c)
    requires InRange(c, group) && Ascending(group) && group != [] && |s.results| == |c.msgs|
    requires known.Some? ==>
      Cut(c, bad, s.processed, group) < |group| && known == Some(errOf(Unclaimed(c, group, s.processed)))
    ensures var (e, failed) := Ordered(c, group, known, false, s);
      var cut := Cut(c, bad, s.processed, group);
      && PrefixCommitted(c, group, cut, s, e)
      && GroupDone(c, errOf, group, cut, e.results)
      && (failed <==> cut < |group|)
    decreases |group|, s.budget, if known.None? then 1 else 0
  {
    hide FailsOnBad, DistinctBatch, Attempt, PrefixCommitted, GroupDone, Unclaimed;
    var cut := Cut(c, bad, s.processed, group);
    if known.Some? {
      if |group| == 1 {
        CutIsFirst(c, bad, s.processed, group);
        assert group == [group[0]];
        SingleBad(c, bad, errOf, group[0], s);
      } else {
        OrderedHalvesRefine(c, bad, errOf, group, known.value, s);
      }
    } else {
      hide Cut;
      AttemptOnBad(c, bad, errOf, group, s);
      BadBeyondCut(c, bad, s.processed, group);
      var next := Attempt(c, group, s).0;
      var indexes := Unclaimed(c, group, s.processed);
      if cut < |group| {
        NeverTransient(c, bad, errOf, indexes);
        OrderedRefines(c, bad, errOf, group, Some(errOf(indexes)), next);
        TraceIrrelevant(c, group, cut, s, next, Ordered(c, group, None, false, s).0);
      } else {
        AllGood(c, errOf, group, s, next);
        assert !FailedIn(group, map[]);
      }
    }
  }

  lemma NeverTransient(c: Ctx, bad: set<nat>, errOf: seq<nat> -> Error, selection: seq<nat>)
    requires FailsOnBad(c, bad, errOf)
    ensures !c.transient(errOf(selection))
  {
  }

  lemma Apart(group: seq<nat>, middle: nat)
    requires Ascending(group) && middle <= |group|
    ensures Ascending(group[..middle]) && Ascending(group[middle..])
    ensures group == group[..middle] + group[middle..]
    ensures forall i :: i in group[middle..] ==> i !in group[..middle]
    ensures forall i :: i in group <==> i in group[..middle] || i in group[middle..]
  {
    var a, b := group[..middle], group[middle..];
    forall i | i in b ensures i !in a {
      var q := IndexOf(b, i);
      assert group[middle + q] == i;
    }
  }

  lemma {:induction false} OrderedHalvesRefine(c: Ctx, bad: set<nat>, errOf: seq<nat> -> Error, group: seq<nat>,
                                               err: Error, s: State)
    requires FailsOnBad(c, bad, errOf) && DistinctBatch(c)
    requires InRange(c, group) && Ascending(group) && |group| > 1 && |s.results| == |c.msgs|
    requires Cut(c, bad, s.processed, group) < |group|
    ensures var (e, failed) := Ordered(c, group, Some(err), false, s);
      var cut := Cut(c, bad, s.processed, group);
      PrefixCommitted(c, group, cut, s, e) && GroupDone(c, errOf, group, cut, e.results) && failed
    decreases |group|, s.budget, 0, 0
  {
    hide FailsOnBad, DistinctBatch, Attempt, Ascending, PrefixCommitted, GroupDone, Unclaimed, Cut, InRange;
    var middle := |group| / 2;
    var a, b := group[..middle], group[middle..];
    Apart(group, middle);
    SliceInRange(c, group, middle);
    CutSplits(c, bad, s.processed, a, b);
    var (half, prefixFailed) := Ordered(c, a, None, false, s);
    OrderedRefines(c, bad, errOf, a, None, s);
    CommittedProcessed(c, a, Cut(c, bad, s.processed, a), s, half);
    var cut := Cut(c, bad, s.processed, group);
    if prefixFailed {
      TailHeld(c, errOf, a, b, cut, s, half);
    } else {
      ClaimsElsewhere(c, bad, s.processed, b, a);
      OrderedRefines(c, bad, errOf, b, None, half);
      var e := Ordered(c, b, None, false, half).0;
      SliceInRange(c, b, cut - |a|);
      ClaimsElsewhere(c, bad, s.processed, b[..cut - |a|], a);
      JoinHalves(c, errOf, a, b, cut - |a|, s, half, e);
    }
  }

  lemma SliceInRange(c: Ctx, group: seq<nat>, middle: nat)
    requires InRange(c, group) && middle <= |group|
    ensures InRange(c, group[..middle]) && InRange(c, group[middle..])
  {
  }

  lemma CommittedProcessed(c: Ctx, a: seq<nat>, cut: nat, s: State, m: State)
    requires InRange(c, a) && cut <= |a| && PrefixCommitted(c, a, cut, s, m)
    ensures |m.results| == |s.results| && m.budget == s.budget
    ensures cut == |a| ==> m.processed == s.processed + Claims(c, a)
  {
    assert a[..|a|] == a;
  }

  lemma TailHeld(c: Ctx, errOf: seq<nat> -> Error, a: seq<nat>, b: seq<nat>, cut: nat, s: State, m: State)
    requires InRange(c, a) && InRange(c, b) && |s.results| == |m.results| == |c.msgs| && cut < |a|
    requires PrefixCommitted(c, a, cut, s, m) && GroupDone(c, errOf, a, cut, m.results) && forall i :: i in b ==> i !in a
    ensures InRange(c, a + b) && PrefixCommitted(c, a + b, cut, s, Block(c, m, b))
    ensures GroupDone(c, errOf, a + b, cut, Block(c, m, b).results)
  {
    var e := Block(c, m, b);
    assert (a + b)[..cut] == a[..cut];
    forall k | 0 <= k < |a + b| ensures e.results[(a + b)[k]] == Answer(c, errOf, a + b, cut, k) {
      if k < |a| {
        assert a[k] in a;
      } else {
        assert b[k - |a|] in b;
      }
    }
  }

  lemma JoinAnswers(c: Ctx, errOf: seq<nat> -> Error, a: seq<nat>, b: seq<nat>, cut: nat, m: State, e: State)
    requires InRange(c, a) && InRange(c, b) && cut <= |b| && |m.results| == |e.results| == |c.msgs|
    requires forall i :: i in a ==> i < |c.msgs| && e.results[i] == m.results[i]
    requires GroupDone(c, errOf, a, |a|, m.results) && GroupDone(c, errOf, b, cut, e.results)
    ensures InRange(c, a + b) && GroupDone(c, errOf, a + b, |a| + cut, e.results)
  {
    forall k | 0 <= k < |a + b| ensures e.results[(a + b)[k]] == Answer(c, errOf, a + b, |a| + cut, k) {
      if k < |a| {
        assert a[k] in a;
      } else {
        assert e.results[b[k - |a|]] == Answer(c, errOf, b, cut, k - |a|);
      }
    }
  }

  lemma JoinHalves(c: Ctx, errOf: seq<nat> -> Error, a: seq<nat>, b: seq<nat>, cut: nat, s: State, m: State, e: State)
    requires InRange(c, a) && InRange(c, b) && cut <= |b| && |s.results| == |c.msgs|
    requires forall i :: i in b ==> i !in a
    requires PrefixCommitted(c, a, |a|, s, m) && GroupDone(c, errOf, a, |a|, m.results)
    requires PrefixCommitted(c, b, cut, m, e) && GroupDone(c, errOf, b, cut, e.results)
    requires Unclaimed(c, b[..cut], m.processed) == Unclaimed(c, b[..cut], s.processed)
    ensures InRange(c, a + b)
    ensures PrefixCommitted(c, a + b, |a| + cut, s, e) && GroupDone(c, errOf, a + b, |a| + cut, e.results)
  {
    hide GroupDone, Unclaimed;
    assert a[..|a|] == a;
    assert (a + b)[..|a| + cut] == a + b[..cut];
    UnclaimedConcat(c, a, b[..cut], s.processed);
    JoinAnswers(c, errOf, a, b, cut, m, e);
  }
}
