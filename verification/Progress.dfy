/** What every run of the bisection keeps, whatever the handler answers: slots, claims, log and reasons. */
module Progress {
  import opened BatchTypes
  import opened Attempts
  import opened Groups
  import opened AttemptFacts
  import opened Bisection

  /** Only the slots of idxs are written, each once and none before; table, log and trace only grow. */
  ghost predicate Kept(c: Ctx, idxs: seq<nat>, s: State, e: State) {
    && |s.results| == |e.results| == |c.msgs|
    && InRange(c, idxs) && NoRepeat(idxs)
    && (forall i :: i in idxs ==> i !in s.writes)
    && (forall i :: 0 <= i < |s.results| && i !in idxs ==> e.results[i] == s.results[i])
    && multiset(e.writes) == multiset(s.writes) + multiset(idxs)
    && s.processed <= e.processed
    && s.log <= e.log
    && s.trace <= e.trace
    && e.budget <= s.budget
  }

  ghost function NewLog(s: State, e: State): seq<nat>
    requires s.log <= e.log
  {
    e.log[|s.log|..]
  }

  /** Every new effect belongs to an acked message of idxs, happens once, and has its key claimed by this run. */
  ghost predicate Logged(c: Ctx, idxs: seq<nat>, s: State, e: State)
    requires Kept(c, idxs, s, e)
  {
    && NoRepeat(NewLog(s, e))
    && (forall i :: i in NewLog(s, e) ==> i in idxs && Acked(e.results[i]))
    && (c.dedup ==>
          && (forall i :: i in NewLog(s, e) ==> c.Key(i) !in s.processed && c.Key(i) in e.processed)
          && (forall i, j :: i in NewLog(s, e) && j in NewLog(s, e) && i != j ==> c.Key(i) != c.Key(j)))
  }

  /** i repeats an earlier answered message that was not acked. */
  ghost predicate Repeats(c: Ctx, i: nat, e: State)
    requires i < |c.msgs| == |e.results|
  {
    exists j :: j in e.writes && j < i && c.Key(j) == c.Key(i) && !Acked(e.results[j])
  }

  /** An acked message holds its claim or repeats an earlier message that was not acked. */
  ghost predicate Claimed(c: Ctx, idxs: seq<nat>, e: State)
    requires InRange(c, idxs) && |c.msgs| == |e.results|
  {
    forall i :: i in idxs && c.dedup && Acked(e.results[i]) ==> c.Key(i) in e.processed || Repeats(c, i, e)
  }

  /** The attempt that gave message i its result. */
  ghost predicate Explains(c: Ctx, entry: Entry, i: nat, r: Result, budget: nat) {
    i in entry.subset &&
    match entry.outcome
    case Committed(verdicts) => r == if i in verdicts then verdicts[i] else Ack()
    case RolledBack(Violation(blocked)) => i in blocked && r == Blocked(c)
    case RolledBack(Fault(err)) =>
      if c.transient(err) then budget == 0 && r == TransientResult(c, err)
      else entry.subset == [i] && r == Nak(err)
  }

  /** Message i is held behind an earlier message of its order key that was not acked. */
  ghost predicate Held(c: Ctx, i: nat, e: State)
    requires i < |c.msgs| == |e.results|
  {
    && e.results[i] == Blocked(c)
    && exists j :: j in e.writes && j < i && c.OrderKey(j) == c.OrderKey(i) && !Acked(e.results[j])
  }

  ghost predicate Justified(c: Ctx, idxs: seq<nat>, e: State)
    requires InRange(c, idxs) && |c.msgs| == |e.results|
  {
    forall i :: i in idxs ==>
      Held(c, i, e) || exists k :: 0 <= k < |e.trace| && Explains(c, e.trace[k], i, e.results[i], e.budget)
  }

  ghost predicate Sound(c: Ctx, idxs: seq<nat>, s: State, e: State) {
    && Kept(c, idxs, s, e)
    && Logged(c, idxs, s, e)
    && Claimed(c, idxs, e)
    && Justified(c, idxs, e)
  }

  /** An attempt that rolled back, or a spent retry. */
  ghost predicate Silent(s: State, m: State) {
    && m.results == s.results && m.writes == s.writes && m.log == s.log
    && s.processed <= m.processed
    && s.trace <= m.trace
    && m.budget <= s.budget
  }

  lemma SilentThen(c: Ctx, idxs: seq<nat>, s: State, m: State, e: State)
    requires Silent(s, m) && Sound(c, idxs, m, e)
    ensures Sound(c, idxs, s, e)
  {
    assert Kept(c, idxs, s, e);
    assert NewLog(s, e) == NewLog(m, e);
  }

  lemma RolledBackIsSilent(c: Ctx, subset: seq<nat>, s: State)
    requires InRange(c, subset) && Ascending(subset) && Attempt(c, subset, s).1.RolledBack?
    ensures Silent(s, Attempt(c, subset, s).0)
  {
    AttemptKeeps(c, subset, s);
  }

  lemma WritesGrow(c: Ctx, idxs: seq<nat>, s: State, e: State)
    requires Kept(c, idxs, s, e)
    ensures forall i :: i in e.writes <==> i in s.writes || i in idxs
    ensures |s.results| == |e.results| == |c.msgs|
    ensures forall i :: i in s.writes && i < |c.msgs| ==> e.results[i] == s.results[i]
  {
    forall i ensures i in e.writes <==> i in s.writes || i in idxs {
      assert i in e.writes <==> i in multiset(e.writes);
      assert i in s.writes <==> i in multiset(s.writes);
      assert i in idxs <==> i in multiset(idxs);
    }
  }

  lemma KeptThen(c: Ctx, a: seq<nat>, b: seq<nat>, s: State, m: State, e: State)
    requires Kept(c, a, s, m) && Kept(c, b, m, e)
    ensures Kept(c, a + b, s, e)
    ensures forall i :: i in a ==> i !in b
  {
    WritesGrow(c, a, s, m);
    assert multiset(a + b) == multiset(a) + multiset(b);
    assert forall p :: 0 <= p < |a| ==> a[p] in a;
    assert forall p :: 0 <= p < |b| ==> b[p] in b;
  }

  lemma LoggedThen(c: Ctx, a: seq<nat>, b: seq<nat>, s: State, m: State, e: State)
    requires Kept(c, a, s, m) && Kept(c, b, m, e) && Kept(c, a + b, s, e)
    requires Logged(c, a, s, m) && Logged(c, b, m, e)
    requires forall i :: i in a ==> i !in b
    ensures Logged(c, a + b, s, e)
  {
    var la, lb := NewLog(s, m), NewLog(m, e);
    assert NewLog(s, e) == la + lb;
    assert forall p :: 0 <= p < |la| ==> la[p] in la;
    assert forall p :: 0 <= p < |lb| ==> lb[p] in lb;
  }

  /** Two runs over disjoint messages, one after the other. */
  lemma SoundThen(c: Ctx, a: seq<nat>, b: seq<nat>, s: State, m: State, e: State)
    requires Sound(c, a, s, m) && Sound(c, b, m, e)
    ensures Sound(c, a + b, s, e)
  {
    KeptThen(c, a, b, s, m, e);
    LoggedThen(c, a, b, s, m, e);
    WritesGrow(c, a, s, m);
    WritesGrow(c, b, m, e);
    ClaimedStays(c, a, b, m, e);
    JustifiedStays(c, a, b, m, e);
  }

  lemma ClaimedStays(c: Ctx, a: seq<nat>, b: seq<nat>, m: State, e: State)
    requires InRange(c, a) && |m.results| == |c.msgs| && Claimed(c, a, m)
    requires Kept(c, b, m, e)
    requires forall i :: i in m.writes ==> i in e.writes && (i < |c.msgs| ==> e.results[i] == m.results[i])
    requires forall i :: i in a ==> i in m.writes
    ensures Claimed(c, a, e)
  {
    forall i | i in a && c.dedup && Acked(e.results[i]) ensures c.Key(i) in e.processed || Repeats(c, i, e) {
      if c.Key(i) !in m.processed {
        assert Repeats(c, i, m);
      }
    }
  }

  lemma JustifiedStays(c: Ctx, a: seq<nat>, b: seq<nat>, m: State, e: State)
    requires InRange(c, a) && |m.results| == |c.msgs| && Justified(c, a, m)
    requires Kept(c, b, m, e)
    requires forall i :: i in m.writes ==> i in e.writes && (i < |c.msgs| ==> e.results[i] == m.results[i])
    requires forall i :: i in a ==> i in m.writes
    ensures Justified(c, a, e)
  {
    forall i | i in a
      ensures Held(c, i, e) || exists k :: 0 <= k < |e.trace| && Explains(c, e.trace[k], i, e.results[i], e.budget)
    {
      if !Held(c, i, m) {
        var k :| 0 <= k < |m.trace| && Explains(c, m.trace[k], i, m.results[i], m.budget);
        assert e.trace[k] == m.trace[k];
        assert Explains(c, e.trace[k], i, e.results[i], e.budget);
      }
    }
  }

  lemma SoundPermuted(c: Ctx, a: seq<nat>, b: seq<nat>, s: State, e: State)
    requires Sound(c, a, s, e) && multiset(a) == multiset(b) && NoRepeat(b)
    ensures Sound(c, b, s, e)
  {
    assert forall i :: i in a <==> i in multiset(a);
    assert forall i :: i in b <==> i in multiset(b);
    assert forall p :: 0 <= p < |b| ==> b[p] in a;
  }

  /** Slots written with results that are not acks. */
  lemma NonAckWrite(c: Ctx, idxs: seq<nat>, s: State, value: nat -> Result)
    requires InRange(c, idxs) && NoRepeat(idxs) && |s.results| == |c.msgs|
    requires forall i :: i in idxs ==> i !in s.writes && !Acked(value(i))
    requires Justified(c, idxs, Write(s, idxs, value))
    ensures Sound(c, idxs, s, Write(s, idxs, value))
  {
    var e := Write(s, idxs, value);
    assert multiset(e.writes) == multiset(s.writes) + multiset(idxs);
    assert NewLog(s, e) == [];
  }

  lemma LastExplains(c: Ctx, idxs: seq<nat>, e: State)
    requires InRange(c, idxs) && |c.msgs| == |e.results| && e.trace != []
    requires forall i :: i in idxs ==> Explains(c, e.trace[|e.trace| - 1], i, e.results[i], e.budget)
    ensures Justified(c, idxs, e)
  {
  }

  lemma CommitKept(c: Ctx, subset: seq<nat>, s: State)
    requires InRange(c, subset) && Ascending(subset) && |s.results| == |c.msgs|
    requires forall i :: i in subset ==> i !in s.writes
    requires Attempt(c, subset, s).1.Committed?
    ensures var (next, outcome) := Attempt(c, subset, s);
      Kept(c, subset, s, Record(next, subset, outcome.verdicts))
  {
    AttemptKeeps(c, subset, s);
    var (next, outcome) := Attempt(c, subset, s);
    var e := Record(next, subset, outcome.verdicts);
    assert e.writes == s.writes + subset;
    assert multiset(e.writes) == multiset(s.writes) + multiset(subset);
  }

  lemma CommitNewLog(c: Ctx, subset: seq<nat>, s: State)
    requires InRange(c, subset) && Attempt(c, subset, s).1.Committed?
    ensures var (next, outcome) := Attempt(c, subset, s);
      && s.log <= next.log && NewLog(s, next) == AckedOf(Fresh(c, subset, Seen(c, s)), outcome.verdicts)
      && next.results == s.results
  {
    hide Fresh, AckedOf, Ending, Released;
  }

  lemma CommitLogged(c: Ctx, subset: seq<nat>, s: State)
    requires InRange(c, subset) && Ascending(subset) && |s.results| == |c.msgs|
    requires Attempt(c, subset, s).1.Committed?
    requires Kept(c, subset, s, Record(Attempt(c, subset, s).0, subset, Attempt(c, subset, s).1.verdicts))
    ensures Logged(c, subset, s, Record(Attempt(c, subset, s).0, subset, Attempt(c, subset, s).1.verdicts))
  {
    hide Attempt, Fresh, AckedOf, Kept, Ascending;
    var (next, outcome) := Attempt(c, subset, s);
    var e := Record(next, subset, outcome.verdicts);
    var indexes := Fresh(c, subset, Seen(c, s));
    var acked := AckedOf(indexes, outcome.verdicts);
    CommitNewLog(c, subset, s);
    FreshAscends(c, subset, Seen(c, s));
    AckedOfAscends(indexes, outcome.verdicts);
    AscendsNoRepeat(acked);
    forall i | i in acked
      ensures i in subset && Acked(e.results[i])
      ensures c.dedup ==> c.Key(i) !in s.processed && c.Key(i) in e.processed
    {
      CommitLogs(c, subset, s, i);
      AckedOfMember(indexes, outcome.verdicts, i);
    }
    if c.dedup {
      CommitDistinct(c, subset, s);
    }
  }

  lemma CommitClaimed(c: Ctx, subset: seq<nat>, s: State)
    requires InRange(c, subset) && Ascending(subset) && |s.results| == |c.msgs|
    requires Attempt(c, subset, s).1.Committed?
    ensures Claimed(c, subset, Record(Attempt(c, subset, s).0, subset, Attempt(c, subset, s).1.verdicts))
  {
    hide Attempt;
    var (next, outcome) := Attempt(c, subset, s);
    var verdicts := outcome.verdicts;
    var e := Record(next, subset, verdicts);
    AttemptKeeps(c, subset, s);
    forall i | i in subset && c.dedup && Acked(e.results[i]) ensures c.Key(i) in e.processed || Repeats(c, i, e) {
      CommitClaims(c, subset, s, i);
      if c.Key(i) !in e.processed {
        var j :| j in subset && j < i && c.Key(j) == c.Key(i) && j in verdicts && !Acked(verdicts[j]);
        assert j in e.writes;
      }
    }
  }

  lemma CommitSound(c: Ctx, subset: seq<nat>, s: State)
    requires InRange(c, subset) && Ascending(subset) && |s.results| == |c.msgs|
    requires forall i :: i in subset ==> i !in s.writes
    requires Attempt(c, subset, s).1.Committed?
    ensures var (next, outcome) := Attempt(c, subset, s);
      Sound(c, subset, s, Record(next, subset, outcome.verdicts))
  {
    CommitKept(c, subset, s);
    CommitLogged(c, subset, s);
    CommitClaimed(c, subset, s);
    var (next, outcome) := Attempt(c, subset, s);
    AttemptKeeps(c, subset, s);
    LastExplains(c, subset, Record(next, subset, outcome.verdicts));
  }

  lemma CommitDistinct(c: Ctx, subset: seq<nat>, s: State)
    requires InRange(c, subset) && Ascending(subset) && c.dedup
    requires Attempt(c, subset, s).1.Committed?
    ensures forall i, j :: i in Fresh(c, subset, Seen(c, s)) && j in Fresh(c, subset, Seen(c, s)) && i != j
              ==> c.Key(i) != c.Key(j)
  {
    var indexes := Fresh(c, subset, Seen(c, s));
    forall i, j | i in indexes && j in indexes && c.Key(i) == c.Key(j) ensures i == j {
      FreshIsFirst(c, subset, Seen(c, s), i, j);
      FreshIsFirst(c, subset, Seen(c, s), j, i);
    }
  }

  /** Blocking the tail of a violation. */
  lemma BlockSound(c: Ctx, subset: seq<nat>, s: State)
    requires InRange(c, subset) && Ascending(subset) && |s.results| == |c.msgs|
    requires forall i :: i in subset ==> i !in s.writes
    requires var outcome := Attempt(c, subset, s).1; outcome.RolledBack? && outcome.failure.Violation?
    ensures var (next, outcome) := Attempt(c, subset, s);
      Sound(c, outcome.failure.blocked, s, Block(c, next, outcome.failure.blocked))
  {
    var (next, outcome) := Attempt(c, subset, s);
    var blocked := outcome.failure.blocked;
    ViolationBlocks(c, subset, s);
    RolledBackIsSilent(c, subset, s);
    BlockedInRange(c, subset, s);
    AttemptKeeps(c, subset, s);
    var e := Block(c, next, blocked);
    LastExplains(c, blocked, e);
    NonAckWrite(c, blocked, next, i => Blocked(c));
    SilentThen(c, blocked, s, next, e);
  }

  lemma BlockedInRange(c: Ctx, subset: seq<nat>, s: State)
    requires InRange(c, subset) && Ascending(subset)
    requires var outcome := Attempt(c, subset, s).1; outcome.RolledBack? && outcome.failure.Violation?
    ensures var blocked := Attempt(c, subset, s).1.failure.blocked;
      InRange(c, blocked) && NoRepeat(blocked) && Ascending(blocked)
  {
    var applied := RepliedWith(c, subset, s);
    FreshAscends(c, subset, Seen(c, s));
    ViolationsAscend(c, Fresh(c, subset, Seen(c, s)), applied, |applied|);
    var blocked := Attempt(c, subset, s).1.failure.blocked;
    forall p | 0 <= p < |blocked| ensures blocked[p] < |c.msgs| {
      assert blocked[p] in blocked;
      ViolationBlocks(c, subset, s);
    }
  }

  lemma {:induction false} ViolationsAscend(c: Ctx, idxs: seq<nat>, applied: seq<Result>, n: nat)
    requires InRange(c, idxs) && |applied| == |idxs| && Ascending(idxs) && n <= |idxs|
    ensures Ascending(ViolationsUpTo(c, idxs, applied, n))
    ensures forall i :: i in ViolationsUpTo(c, idxs, applied, n) ==> i in idxs[..n]
  {
    if n > 0 {
      ViolationsAscend(c, idxs, applied, n - 1);
      var init := ViolationsUpTo(c, idxs, applied, n - 1);
      forall p | 0 <= p < |init| ensures init[p] < idxs[n - 1] {
        assert init[p] in init;
      }
      AppendAscends(init, idxs[n - 1]);
      assert idxs[..n] == idxs[..n - 1] + [idxs[n - 1]];
    }
  }

  /** The end of a call on an error: transient with no budget left, or a single message. */
  lemma FaultSound(c: Ctx, subset: seq<nat>, s: State)
    requires InRange(c, subset) && Ascending(subset) && |s.results| == |c.msgs|
    requires forall i :: i in subset ==> i !in s.writes
    requires var outcome := Attempt(c, subset, s).1; outcome.RolledBack? && outcome.failure.Fault?
    ensures var (next, outcome) := Attempt(c, subset, s);
      var err := outcome.failure.err;
      && (c.transient(err) && s.budget == 0 ==> Sound(c, subset, s, GiveUp(c, next, subset, err)))
      && (!c.transient(err) && |subset| == 1 ==> Sound(c, subset, s, Write(next, subset, i => Nak(err))))
  {
    var (next, outcome) := Attempt(c, subset, s);
    var err := outcome.failure.err;
    RolledBackIsSilent(c, subset, s);
    AttemptKeeps(c, subset, s);
    if c.transient(err) && s.budget == 0 {
      var e := GiveUp(c, next, subset, err);
      LastExplains(c, subset, e);
      NonAckWrite(c, subset, next, i => TransientResult(c, err));
      SilentThen(c, subset, s, next, e);
    }
    if !c.transient(err) && |subset| == 1 {
      var e := Write(next, subset, i => Nak(err));
      assert subset == [subset[0]];
      LastExplains(c, subset, e);
      NonAckWrite(c, subset, next, i => Nak(err));
      SilentThen(c, subset, s, next, e);
    }
  }
}
