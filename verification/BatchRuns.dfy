/** What one handle call promises, against every handler. */
module BatchRuns {
  import opened BatchTypes
  import opened Groups
  import opened Bisection
  import opened Progress
  import opened Soundness
  import opened OrderSafety

  lemma HandleSound(c: Ctx, processed: set<string>, budget: nat)
    ensures Sound(c, All(|c.msgs|), Initial(c, processed, budget), Handle(c, processed, budget))
  {
    hide Kept, Logged, Claimed, Justified, Bisect, BisectGroups, ValidGroups;
    var s := Initial(c, processed, budget);
    var all := All(|c.msgs|);
    if c.msgs == [] {
      NothingSound(c, s);
    } else if c.ordered {
      WholeBatch(c);
      var groups := GroupsOf(c, |c.msgs|);
      BisectGroupsSound(c, groups, s);
      SortSorts(Flat(groups));
      SoundPermuted(c, Flat(groups), all, s, Handle(c, processed, budget));
    } else {
      BisectSound(c, all, s);
    }
  }

  /** Every result slot is written exactly once. */
  lemma EverySlotOnce(c: Ctx, processed: set<string>, budget: nat)
    ensures var e := Handle(c, processed, budget);
      |e.results| == |c.msgs| && multiset(e.writes) == multiset(All(|c.msgs|))
  {
    HandleSound(c, processed, budget);
  }

  /** Every message is answered by an attempt that was for it: by its own verdict or as claimed before when
      the attempt committed, by its own error when it was tried alone, by a transient error when no retry
      was left, and by a hold behind a violation or behind an earlier message that was not acked. */
  lemma EveryAnswerHasAReason(c: Ctx, processed: set<string>, budget: nat, i: nat)
    requires i < |c.msgs|
    ensures var e := Handle(c, processed, budget);
      |e.results| == |c.msgs|
      && ((e.results[i] == Blocked(c)
           && exists j :: 0 <= j < i && c.OrderKey(j) == c.OrderKey(i) && !Acked(e.results[j]))
          || exists k :: 0 <= k < |e.trace| && Explains(c, e.trace[k], i, e.results[i], e.budget))
  {
    HandleSound(c, processed, budget);
    AllMember(|c.msgs|);
    var e := Handle(c, processed, budget);
    assert i in All(|c.msgs|);
    if Held(c, i, e) {
      var j :| j in e.writes && j < i && c.OrderKey(j) == c.OrderKey(i) && !Acked(e.results[j]);
      assert 0 <= j < i;
    }
  }

  /** With deduplication an acked message holds its claim after the batch, unless it repeats an earlier
      message of the batch that was not acked. */
  lemma AckedIsClaimed(c: Ctx, processed: set<string>, budget: nat, i: nat)
    requires i < |c.msgs| && c.dedup
    ensures var e := Handle(c, processed, budget);
      |e.results| == |c.msgs| &&
      (Acked(e.results[i]) ==>
         c.Key(i) in e.processed || exists j :: 0 <= j < i && c.Key(j) == c.Key(i) && !Acked(e.results[j]))
  {
    HandleSound(c, processed, budget);
    AllMember(|c.msgs|);
    var e := Handle(c, processed, budget);
    assert i in All(|c.msgs|);
    if Acked(e.results[i]) && c.Key(i) !in e.processed {
      assert Repeats(c, i, e);
      var j :| j in e.writes && j < i && c.Key(j) == c.Key(i) && !Acked(e.results[j]);
      assert 0 <= j < i;
    }
  }

  /** With an order key, a message whose effects were committed follows only acked messages of its order
      key, if no earlier message of the batch has its deduplication key. */
  lemma CommittedBehindAcked(c: Ctx, processed: set<string>, budget: nat, i: nat, j: nat)
    requires c.ordered && i < j < |c.msgs| && c.OrderKey(i) == c.OrderKey(j)
    requires j in Handle(c, processed, budget).log && Leads(c, j)
    ensures var e := Handle(c, processed, budget); |e.results| == |c.msgs| && Acked(e.results[i])
  {
    hide Logged, Claimed, Justified, BisectGroups, ValidGroups;
    var s := Initial(c, processed, budget);
    var e := Handle(c, processed, budget);
    WholeBatch(c);
    BisectGroupsSafe(c, GroupsOf(c, |c.msgs|), s);
    assert NewLog(s, e) == e.log;
  }

  /** With or without an order key, effects are committed only for acked messages, each once; with deduplication
      each key once, and only keys that were not claimed before. */
  lemma CommittedIsAcked(c: Ctx, processed: set<string>, budget: nat)
    ensures var e := Handle(c, processed, budget);
      && |e.results| == |c.msgs| && NoRepeat(e.log)
      && (forall i :: i in e.log ==> i < |c.msgs| && Acked(e.results[i]))
      && (c.dedup ==> forall i, j :: i in e.log && j in e.log && i != j ==> c.Key(i) != c.Key(j))
      && (c.dedup ==> forall i :: i in e.log ==> c.Key(i) !in processed && c.Key(i) in e.processed)
      && processed <= e.processed
  {
    hide Claimed, Justified;
    HandleSound(c, processed, budget);
    AllMember(|c.msgs|);
    var s, e := Initial(c, processed, budget), Handle(c, processed, budget);
    assert NewLog(s, e) == e.log;
    assert forall i :: i in All(|c.msgs|) ==> i < |c.msgs|;
  }
}
