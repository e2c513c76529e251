/** What one attempt does to the claims, the log and the result slots. */
module AttemptFacts {
  import opened BatchTypes
  import opened Attempts
  import opened Groups

  lemma AscendsNoRepeat(s: seq<nat>)
    requires Ascending(s)
    ensures NoRepeat(s)
  {
  }

  lemma AppendAscends(s: seq<nat>, x: nat)
    requires Ascending(s) && forall p :: 0 <= p < |s| ==> s[p] < x
    ensures Ascending(s + [x])
  {
  }

  lemma {:induction false} FreshAscends(c: Ctx, subset: seq<nat>, processed: set<string>)
    requires InRange(c, subset) && Ascending(subset)
    ensures Ascending(Fresh(c, subset, processed))
    ensures !c.dedup ==> Fresh(c, subset, processed) == subset
  {
    if subset != [] {
      var init, last := subset[..|subset| - 1], subset[|subset| - 1];
      FreshAscends(c, init, processed);
      var rest := Fresh(c, init, processed);
      forall p | 0 <= p < |rest| ensures rest[p] < last {
        assert rest[p] in rest;
      }
      AppendAscends(rest, last);
      assert subset == init + [last];
    }
  }

  lemma {:induction false} FreshIsUnclaimed(c: Ctx, subset: seq<nat>, processed: set<string>, i: nat)
    requires InRange(c, subset) && c.dedup && i in Fresh(c, subset, processed)
    ensures c.Key(i) !in processed
  {
    var init := subset[..|subset| - 1];
    if i in Fresh(c, init, processed) {
      FreshIsUnclaimed(c, init, processed, i);
    }
  }

  /** A message of subset that is not fresh was claimed before or repeats an earlier message of subset. */
  lemma {:induction false} NotFresh(c: Ctx, subset: seq<nat>, processed: set<string>, i: nat)
    requires InRange(c, subset) && Ascending(subset) && c.dedup
    requires i in subset && i !in Fresh(c, subset, processed)
    ensures c.Key(i) in processed || exists j :: j in subset && j < i && c.Key(j) == c.Key(i)
  {
    var init, last := subset[..|subset| - 1], subset[|subset| - 1];
    if i == last {
      if c.Key(last) in Keys(c, init) {
        var j :| j in init && c.Key(j) == c.Key(last);
        assert j in subset && j < i;
      }
    } else {
      assert i in init;
      NotFresh(c, init, processed, i);
      if j :| j in init && j < i && c.Key(j) == c.Key(i) {
        assert j in subset;
      }
    }
  }

  /** A fresh message comes before every other message of subset with its key. */
  lemma {:induction false} FreshIsFirst(c: Ctx, subset: seq<nat>, processed: set<string>, i: nat, j: nat)
    requires InRange(c, subset) && Ascending(subset) && c.dedup
    requires i in Fresh(c, subset, processed) && j in subset && c.Key(i) == c.Key(j)
    ensures i <= j
  {
    var init, last := subset[..|subset| - 1], subset[|subset| - 1];
    assert subset == init + [last];
    if i in Fresh(c, init, processed) {
      if j in init {
        FreshIsFirst(c, init, processed, i, j);
      } else {
        assert i in init;
      }
    } else {
      assert i == last && c.Key(i) !in Keys(c, init);
    }
  }

  lemma {:induction false} VerdictsDomain(indexes: seq<nat>, applied: seq<Result>)
    requires |applied| == |indexes|
    ensures forall i :: i in Verdicts(indexes, applied) <==> i in indexes
  {
    if indexes != [] {
      VerdictsDomain(indexes[..|indexes| - 1], applied[..|indexes| - 1]);
      assert indexes == indexes[..|indexes| - 1] + [indexes[|indexes| - 1]];
    }
  }

  lemma {:induction false} VerdictsAt(indexes: seq<nat>, applied: seq<Result>, p: nat)
    requires |applied| == |indexes| && NoRepeat(indexes) && p < |indexes|
    ensures indexes[p] in Verdicts(indexes, applied) && Verdicts(indexes, applied)[indexes[p]] == applied[p]
  {
    var n := |indexes| - 1;
    if p < n {
      VerdictsAt(indexes[..n], applied[..n], p);
    }
  }

  lemma {:induction false} AckedOfMember(indexes: seq<nat>, verdicts: map<nat, Result>, i: nat)
    ensures i in AckedOf(indexes, verdicts) <==> i in indexes && (i in verdicts ==> Acked(verdicts[i]))
  {
    if indexes != [] {
      AckedOfMember(indexes[..|indexes| - 1], verdicts, i);
      assert indexes == indexes[..|indexes| - 1] + [indexes[|indexes| - 1]];
    }
  }

  lemma {:induction false} AckedOfAscends(indexes: seq<nat>, verdicts: map<nat, Result>)
    requires Ascending(indexes)
    ensures Ascending(AckedOf(indexes, verdicts))
  {
    if indexes != [] {
      var init := indexes[..|indexes| - 1];
      AckedOfAscends(init, verdicts);
      var acked := AckedOf(init, verdicts);
      assert forall p :: 0 <= p < |acked| ==> acked[p] in acked && acked[p] in init;
    }
  }

  /** A committed outcome answers exactly the fresh messages, or nobody. */
  lemma CommittedDomain(c: Ctx, subset: seq<nat>, s: State)
    requires InRange(c, subset)
    ensures var (next, outcome) := Attempt(c, subset, s);
      outcome.Committed? ==>
        outcome.verdicts == map[] || (c.perMessage && outcome.verdicts.Keys == set i | i in Fresh(c, subset, Seen(c, s)))
  {
    var outcome := Attempt(c, subset, s).1;
    var indexes := Fresh(c, subset, Seen(c, s));
    if outcome.Committed? && outcome.verdicts != map[] {
      var reply := c.oracle.apply(|s.trace|, indexes);
      VerdictsDomain(indexes, reply.results);
    }
  }

  /** A rollback only lets other consumers' keys in; a commit also claims its messages. */
  lemma AttemptKeeps(c: Ctx, subset: seq<nat>, s: State)
    requires InRange(c, subset) && Ascending(subset)
    ensures var (next, outcome) := Attempt(c, subset, s);
      && s.processed <= Seen(c, s) <= next.processed
      && next.results == s.results && next.writes == s.writes && next.budget == s.budget
      && next.trace == s.trace + [Entry(subset, outcome)]
      && s.log <= next.log
      && (outcome.RolledBack? ==> next.log == s.log && next.processed == Seen(c, s))
  {
    var (next, outcome) := Attempt(c, subset, s);
    var seen := Seen(c, s);
    var indexes := Fresh(c, subset, seen);
    if outcome.Committed? && c.dedup {
      forall i | i in indexes ensures c.Key(i) !in seen {
        FreshIsUnclaimed(c, subset, seen, i);
      }
      assert Released(c, indexes, outcome.verdicts) !! seen;
    }
  }

  /** After a commit every acked message of subset holds its claim, unless it repeats an earlier
      message of subset that was not acked and gave the claim back. */
  lemma CommitClaims(c: Ctx, subset: seq<nat>, s: State, i: nat)
    requires InRange(c, subset) && Ascending(subset) && c.dedup && i in subset
    requires Attempt(c, subset, s).1.Committed?
    requires var verdicts := Attempt(c, subset, s).1.verdicts; i in verdicts ==> Acked(verdicts[i])
    ensures var (next, outcome) := Attempt(c, subset, s);
      c.Key(i) in next.processed
      || exists j :: j in subset && j < i && c.Key(j) == c.Key(i) && j in outcome.verdicts && !Acked(outcome.verdicts[j])
  {
    var (next, outcome) := Attempt(c, subset, s);
    var indexes := Fresh(c, subset, Seen(c, s));
    if c.Key(i) in Released(c, indexes, outcome.verdicts) {
      var j :| j in indexes && j in outcome.verdicts && !Acked(outcome.verdicts[j]) && c.Key(j) == c.Key(i);
      FreshIsFirst(c, subset, Seen(c, s), j, i);
      assert j != i;
    } else {
      assert c.Key(i) in Keys(c, subset);
    }
  }

  /** The messages a commit adds to the log were claimed by it. */
  lemma CommitLogs(c: Ctx, subset: seq<nat>, s: State, i: nat)
    requires InRange(c, subset) && Ascending(subset)
    requires Attempt(c, subset, s).1.Committed?
    requires i in AckedOf(Fresh(c, subset, Seen(c, s)), Attempt(c, subset, s).1.verdicts)
    ensures i in subset
    ensures c.dedup ==> c.Key(i) !in s.processed && c.Key(i) in Attempt(c, subset, s).0.processed
  {
    var verdicts := Attempt(c, subset, s).1.verdicts;
    var indexes := Fresh(c, subset, Seen(c, s));
    AckedOfMember(indexes, verdicts, i);
    if c.dedup {
      FreshIsUnclaimed(c, subset, Seen(c, s), i);
      forall j | j in indexes && j in verdicts && !Acked(verdicts[j]) ensures c.Key(j) != c.Key(i) {
        if c.Key(j) == c.Key(i) {
          FreshIsFirst(c, subset, Seen(c, s), j, i);
          FreshIsFirst(c, subset, Seen(c, s), i, j);
        }
      }
      assert c.Key(i) in Keys(c, subset);
    }
  }

  /** Membership in the list of blocked positions. */
  lemma {:induction false} ViolationAt(c: Ctx, idxs: seq<nat>, applied: seq<Result>, n: nat, p: nat)
    requires InRange(c, idxs) && |applied| == |idxs| && NoRepeat(idxs) && p < n <= |idxs|
    ensures idxs[p] in ViolationsUpTo(c, idxs, applied, n)
      <==> ViolatedKey(c, idxs, applied, c.OrderKey(idxs[p])) && FailsBefore(c, idxs, applied, p)
  {
    hide ViolatedKey, FailsBefore;
    if p < n - 1 {
      ViolationAt(c, idxs, applied, n - 1, p);
    } else {
      OnlyEarlier(c, idxs, applied, n - 1, p);
    }
  }

  lemma {:induction false} OnlyEarlier(c: Ctx, idxs: seq<nat>, applied: seq<Result>, n: nat, p: nat)
    requires InRange(c, idxs) && |applied| == |idxs| && NoRepeat(idxs) && n <= p < |idxs|
    ensures idxs[p] !in ViolationsUpTo(c, idxs, applied, n)
  {
    hide ViolatedKey, FailsBefore;
    if n > 0 {
      OnlyEarlier(c, idxs, applied, n - 1, p);
    }
  }

  lemma Violates(c: Ctx, idxs: seq<nat>, applied: seq<Result>, p: nat, q: nat)
    requires InRange(c, idxs) && |applied| == |idxs|
    requires p < q < |idxs| && c.OrderKey(idxs[p]) == c.OrderKey(idxs[q]) && Acked(applied[q]) && !Acked(applied[p])
    ensures FailsBefore(c, idxs, applied, q) && ViolatedKey(c, idxs, applied, c.OrderKey(idxs[q]))
  {
    assert FailsBefore(c, idxs, applied, q);
  }

  /** Without a violation an ack follows only acks of its order key. */
  lemma NoViolation(c: Ctx, idxs: seq<nat>, applied: seq<Result>, p: nat, q: nat)
    requires InRange(c, idxs) && |applied| == |idxs| && NoRepeat(idxs)
    requires OrderViolations(c, idxs, applied) == []
    requires p < q < |idxs| && c.OrderKey(idxs[p]) == c.OrderKey(idxs[q]) && Acked(applied[q])
    ensures Acked(applied[p])
  {
    if !Acked(applied[p]) {
      Violates(c, idxs, applied, p, q);
      ViolationAt(c, idxs, applied, |idxs|, q);
    }
  }

  lemma OrderOfVerdicts(c: Ctx, indexes: seq<nat>, applied: seq<Result>, i: nat, j: nat)
    requires InRange(c, indexes) && |applied| == |indexes| && Ascending(indexes)
    requires OrderViolations(c, indexes, applied) == []
    requires i in indexes && j in indexes && i < j && c.OrderKey(i) == c.OrderKey(j)
    requires var verdicts := Verdicts(indexes, applied); j in verdicts && Acked(verdicts[j])
    ensures var verdicts := Verdicts(indexes, applied); i in verdicts && Acked(verdicts[i])
  {
    var p := IndexOf(indexes, i);
    var q := IndexOf(indexes, j);
    VerdictsAt(indexes, applied, p);
    VerdictsAt(indexes, applied, q);
    NoViolation(c, indexes, applied, p, q);
  }

  /** Behind a blocked position every position of the same order key is blocked. */
  lemma ViolationTail(c: Ctx, idxs: seq<nat>, applied: seq<Result>, p: nat, q: nat)
    requires InRange(c, idxs) && |applied| == |idxs| && NoRepeat(idxs)
    requires p < q < |idxs| && c.OrderKey(idxs[p]) == c.OrderKey(idxs[q])
    requires idxs[p] in OrderViolations(c, idxs, applied)
    ensures idxs[q] in OrderViolations(c, idxs, applied)
  {
    ViolationAt(c, idxs, applied, |idxs|, p);
    ViolationAt(c, idxs, applied, |idxs|, q);
    var f :| 0 <= f < p && c.OrderKey(idxs[f]) == c.OrderKey(idxs[p]) && !Acked(applied[f]);
    assert FailsBefore(c, idxs, applied, q);
  }

  /** What the handler replied when an attempt committed with verdicts or rolled back on a violation. */
  lemma RepliedWith(c: Ctx, subset: seq<nat>, s: State) returns (applied: seq<Result>)
    requires InRange(c, subset)
    requires var outcome := Attempt(c, subset, s).1;
      if outcome.Committed? then outcome.verdicts != map[] else outcome.failure.Violation?
    ensures var indexes, outcome := Fresh(c, subset, Seen(c, s)), Attempt(c, subset, s).1;
      && |applied| == |indexes|
      && (outcome.Committed? ==>
            outcome.verdicts == Verdicts(indexes, applied) && (c.ordered ==> OrderViolations(c, indexes, applied) == []))
      && (outcome.RolledBack? ==> outcome.failure.blocked == OrderViolations(c, indexes, applied))
  {
    applied := c.oracle.apply(|s.trace|, Fresh(c, subset, Seen(c, s))).results;
  }

  lemma IndexOf(s: seq<nat>, i: nat) returns (p: nat)
    requires i in s
    ensures p < |s| && s[p] == i
  {
    p :| p < |s| && s[p] == i;
  }

  /** Without a violation a fresh acked message follows only acked messages of its order key. */
  lemma CommitKeepsOrder(c: Ctx, subset: seq<nat>, s: State, i: nat, j: nat)
    requires InRange(c, subset) && Ascending(subset) && c.ordered
    requires Attempt(c, subset, s).1.Committed?
    requires i in subset && i < j && j < |c.msgs| && c.OrderKey(i) == c.OrderKey(j)
    requires j in AckedOf(Fresh(c, subset, Seen(c, s)), Attempt(c, subset, s).1.verdicts)
    ensures var verdicts := Attempt(c, subset, s).1.verdicts; i in verdicts ==> Acked(verdicts[i])
  {
    var verdicts := Attempt(c, subset, s).1.verdicts;
    var indexes := Fresh(c, subset, Seen(c, s));
    AckedOfMember(indexes, verdicts, j);
    if i in verdicts {
      CommittedDomain(c, subset, s);
      FreshAscends(c, subset, Seen(c, s));
      var applied := RepliedWith(c, subset, s);
      OrderOfVerdicts(c, indexes, applied, i, j);
    }
  }

  /** A violation blocks every fresh message behind a blocked one of the same order key. */
  lemma BlockedTail(c: Ctx, subset: seq<nat>, s: State, i: nat, j: nat)
    requires InRange(c, subset) && Ascending(subset)
    requires var outcome := Attempt(c, subset, s).1;
      outcome.RolledBack? && outcome.failure.Violation? && i in outcome.failure.blocked
    requires i < j < |c.msgs| && c.OrderKey(i) == c.OrderKey(j) && j in Fresh(c, subset, Seen(c, s))
    ensures j in Attempt(c, subset, s).1.failure.blocked
  {
    hide OrderViolations, Fresh;
    var indexes := Fresh(c, subset, Seen(c, s));
    FreshAscends(c, subset, Seen(c, s));
    var applied := RepliedWith(c, subset, s);
    hide Attempt;
    var p := IndexOf(indexes, i);
    var q := IndexOf(indexes, j);
    ViolationTail(c, indexes, applied, p, q);
  }
}
