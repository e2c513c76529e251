/** One call of the transactional batch handler, step by step, proved against the functions on its state. */
module BatchHandler {
  import opened BatchTypes
  import opened Attempts
  import opened AttemptFacts
  import opened Groups
  import opened Links
  import opened Bisection
  import opened Soundness

  const DEFAULT_RETRY_BUDGET: nat := 2

  /** The options InTx works with: a negative transient delay counts as none. */
  function Normalised(opts: Ctx): Ctx {
    if opts.transientDelay < 0 then opts.(transientDelay := 0) else opts
  }

  function RetryBudget(opt: int): nat {
    if opt == 0 then DEFAULT_RETRY_BUDGET else if opt < 0 then 0 else opt
  }

  /** The messages of idxs whose key is not in the table. */
  function NotIn(c: Ctx, idxs: seq<nat>, table: set<string>): (r: seq<nat>)
    requires InRange(c, idxs)
    ensures InRange(c, r)
  {
    if idxs == [] then []
    else NotIn(c, idxs[..|idxs| - 1], table) +
         (if c.Key(idxs[|idxs| - 1]) in table then [] else [idxs[|idxs| - 1]])
  }

  /** What a handle call answers for a batch. */
  ghost function Answers(c: Ctx, processed: set<string>, budget: nat): seq<Result> {
    var results := Handle(c, processed, budget).results;
    if c.ordered && |results| == |c.msgs| then LinkAll(c, results) else results
  }

  lemma {:induction false} FreshIsNotIn(c: Ctx, subset: seq<nat>, table: set<string>)
    requires InRange(c, subset) && c.dedup
    ensures Fresh(c, subset, table) == NotIn(c, Fresh(c, subset, {}), table)
  {
    if subset != [] {
      var init, last := subset[..|subset| - 1], subset[|subset| - 1];
      FreshIsNotIn(c, init, table);
      var firsts := Fresh(c, init, {});
      if c.Key(last) !in Keys(c, init) {
        assert Fresh(c, subset, {}) == firsts + [last];
        assert (firsts + [last])[..|firsts + [last]| - 1] == firsts;
      } else {
        assert Fresh(c, subset, {}) == firsts && Fresh(c, subset, table) == Fresh(c, init, table);
      }
    }
  }

  lemma {:induction false} FreshWithoutDedup(c: Ctx, subset: seq<nat>, table: set<string>)
    requires InRange(c, subset) && !c.dedup
    ensures Fresh(c, subset, table) == subset
  {
    if subset != [] {
      FreshWithoutDedup(c, subset[..|subset| - 1], table);
      assert subset == subset[..|subset| - 1] + [subset[|subset| - 1]];
    }
  }

  lemma {:induction false} FirstsHaveAllKeys(c: Ctx, subset: seq<nat>)
    requires InRange(c, subset) && c.dedup
    ensures Keys(c, Fresh(c, subset, {})) == Keys(c, subset)
  {
    if subset != [] {
      var init, last := subset[..|subset| - 1], subset[|subset| - 1];
      FirstsHaveAllKeys(c, init);
      assert subset == init + [last];
      assert Keys(c, subset) == Keys(c, init) + {c.Key(last)};
      var firsts := Fresh(c, init, {});
      if c.Key(last) !in Keys(c, init) {
        assert Fresh(c, subset, {}) == firsts + [last];
        assert Keys(c, firsts + [last]) == Keys(c, firsts) + {c.Key(last)};
      }
    }
  }

  lemma FreshStep(c: Ctx, subset: seq<nat>, n: nat)
    requires InRange(c, subset) && c.dedup && n < |subset|
    ensures Fresh(c, subset[..n + 1], {}) ==
      Fresh(c, subset[..n], {}) + (if c.Key(subset[n]) in Keys(c, subset[..n]) then [] else [subset[n]])
    ensures Keys(c, subset[..n + 1]) == Keys(c, subset[..n]) + {c.Key(subset[n])}
  {
    TakeOne(subset, n);
  }

  lemma FreshOfNone(c: Ctx, subset: seq<nat>)
    requires InRange(c, subset)
    ensures Fresh(c, subset[..0], {}) == [] && Keys(c, subset[..0]) == {}
  {
  }

  function SetOf(keys: seq<string>): set<string> {
    set key | key in keys
  }

  lemma KeysListed(c: Ctx, idxs: seq<nat>, keys: seq<string>)
    requires InRange(c, idxs) && |keys| == |idxs| && forall p :: 0 <= p < |keys| ==> keys[p] == c.Key(idxs[p])
    ensures SetOf(keys) == Keys(c, idxs)
  {
    forall i | i in idxs ensures c.Key(i) in keys {
      var p :| 0 <= p < |idxs| && idxs[p] == i;
      assert keys[p] in keys;
    }
  }

  lemma TakeOne<T>(s: seq<T>, n: nat)
    requires n < |s|
    ensures s[..n + 1] == s[..n] + [s[n]] && s[..n + 1][..n] == s[..n]
  {
  }

  lemma NothingReleased(c: Ctx, indexes: seq<nat>)
    requires InRange(c, indexes)
    ensures Released(c, indexes, map[]) == {}
  {
  }

  lemma {:induction false} AddsToPosition(c: Ctx, groups: seq<seq<nat>>, i: nat, p: nat)
    requires i < |c.msgs| && p < |groups|
    requires forall q :: 0 <= q < |groups| ==> groups[q] != [] && InRange(c, groups[q])
    requires Head(c, groups[p]) == c.OrderKey(i)
    requires forall q :: 0 <= q < |groups| && q != p ==> Head(c, groups[q]) != c.OrderKey(i)
    ensures AddToGroup(c, groups, i) == groups[p := groups[p] + [i]]
  {
    if p > 0 {
      assert groups[p] == groups[1..][p - 1];
      AddsToPosition(c, groups[1..], i, p - 1);
    }
  }

  lemma {:induction false} AddsGroup(c: Ctx, groups: seq<seq<nat>>, i: nat)
    requires i < |c.msgs|
    requires forall q :: 0 <= q < |groups| ==> groups[q] != [] && InRange(c, groups[q])
    requires forall q :: 0 <= q < |groups| ==> Head(c, groups[q]) != c.OrderKey(i)
    ensures AddToGroup(c, groups, i) == groups + [[i]]
  {
    if groups != [] {
      AddsGroup(c, groups[1..], i);
    }
  }

  lemma BlockedInRange(c: Ctx, subset: seq<nat>, blocked: seq<nat>)
    requires InRange(c, subset) && forall i :: i in blocked ==> i in subset
    ensures InRange(c, blocked)
  {
    forall p | 0 <= p < |blocked| ensures blocked[p] < |c.msgs| {
      assert blocked[p] in blocked;
    }
  }

  lemma WithoutOne(group: seq<nat>, removed: seq<nat>)
    ensures WithoutIndexes([group], removed) == if Keep(group, removed) == [] then [] else [Keep(group, removed)]
  {
    assert [group][..0] == [];
  }

  /** The only group without the blocked messages is what is left of it. */
  lemma KeepRest(c: Ctx, group: seq<nat>, blocked: seq<nat>)
    requires InRange(c, group) && Ascending(group) && forall i :: i in blocked ==> i in group
    ensures InRange(c, blocked) && InRange(c, Keep(group, blocked)) && Ascending(Keep(group, blocked))
    ensures (exists i :: i in blocked && i in group) ==> |Keep(group, blocked)| < |group|
    ensures WithoutIndexes([group], blocked) == if Keep(group, blocked) == [] then [] else [Keep(group, blocked)]
  {
    BlockedInRange(c, group, blocked);
    KeepAscends(group, blocked);
    KeepInRange(c, group, blocked);
    WithoutOne(group, blocked);
  }

  /** firstFailure holds the first failure of each order key among the first n positions. */
  ghost predicate Failures(c: Ctx, indexes: seq<nat>, applied: seq<Result>, firstFailure: map<string, nat>, n: nat)
    requires InRange(c, indexes) && |applied| == |indexes| && n <= |indexes|
  {
    && (forall key :: key in firstFailure ==>
          firstFailure[key] < n && c.OrderKey(indexes[firstFailure[key]]) == key && !Acked(applied[firstFailure[key]]))
    && (forall f :: 0 <= f < n && !Acked(applied[f]) ==>
          c.OrderKey(indexes[f]) in firstFailure && firstFailure[c.OrderKey(indexes[f])] <= f)
  }

  /** violated holds the order keys with an ack after a failure among the first n positions. */
  ghost predicate Violated(c: Ctx, indexes: seq<nat>, applied: seq<Result>, violated: set<string>, n: nat)
    requires InRange(c, indexes) && |applied| == |indexes| && n <= |indexes|
  {
    && (forall key :: key in violated ==> ViolatedKey(c, indexes, applied, key))
    && (forall a :: 0 <= a < n && Acked(applied[a]) && FailsBefore(c, indexes, applied, a) ==>
          c.OrderKey(indexes[a]) in violated)
  }

  lemma NoFailures(c: Ctx, indexes: seq<nat>, applied: seq<Result>)
    requires InRange(c, indexes) && |applied| == |indexes|
    ensures Failures(c, indexes, applied, map[], 0) && Violated(c, indexes, applied, {}, 0)
  {
  }

  lemma NextFailure(c: Ctx, indexes: seq<nat>, applied: seq<Result>, firstFailure: map<string, nat>, i: nat)
    requires InRange(c, indexes) && |applied| == |indexes| && i < |indexes|
    requires Failures(c, indexes, applied, firstFailure, i)
    ensures var key := c.OrderKey(indexes[i]);
      && (key in firstFailure <==> FailsBefore(c, indexes, applied, i))
      && Failures(c, indexes, applied,
                  if key in firstFailure || Acked(applied[i]) then firstFailure else firstFailure[key := i], i + 1)
  {
  }

  lemma NextViolation(c: Ctx, indexes: seq<nat>, applied: seq<Result>, violated: set<string>, i: nat)
    requires InRange(c, indexes) && |applied| == |indexes| && i < |indexes|
    requires Violated(c, indexes, applied, violated, i)
    ensures Violated(c, indexes, applied,
                     if Acked(applied[i]) && FailsBefore(c, indexes, applied, i)
                     then violated + {c.OrderKey(indexes[i])} else violated, i + 1)
  {
    hide FailsBefore;
  }

  lemma ViolationSeen(c: Ctx, indexes: seq<nat>, applied: seq<Result>, firstFailure: map<string, nat>,
                      violated: set<string>, i: nat)
    requires InRange(c, indexes) && |applied| == |indexes| && i < |indexes|
    requires Failures(c, indexes, applied, firstFailure, |indexes|) && Violated(c, indexes, applied, violated, |indexes|)
    ensures var key := c.OrderKey(indexes[i]);
      && (key in violated <==> ViolatedKey(c, indexes, applied, key))
      && (key in violated ==> key in firstFailure && (FailsBefore(c, indexes, applied, i) <==> i > firstFailure[key]))
  {
    var key := c.OrderKey(indexes[i]);
    if key in violated {
      var a :| 0 <= a < |indexes| && c.OrderKey(indexes[a]) == key && Acked(applied[a]) && FailsBefore(c, indexes, applied, a);
    }
  }

  /** last holds the last non-acked message of every order key among the first i messages. */
  ghost predicate Tracks(c: Ctx, results: seq<Result>, last: map<string, nat>, i: nat)
    requires i <= |results| == |c.msgs|
  {
    forall key :: LastFailed(c, results, key, i) == if key in last then Some(last[key]) else None
  }

  lemma TracksNothing(c: Ctx, results: seq<Result>)
    requires |results| == |c.msgs|
    ensures Tracks(c, results, map[], 0)
  {
  }

  lemma TracksStep(c: Ctx, results: seq<Result>, last: map<string, nat>, i: nat)
    requires i < |results| == |c.msgs| && Tracks(c, results, last, i)
    ensures Tracks(c, results, if Acked(results[i]) then last else last[c.OrderKey(i) := i], i + 1)
    ensures Linked(c, results, i) ==
      if !Acked(results[i]) && c.OrderKey(i) in last then results[i].(after := last[c.OrderKey(i)] + 1) else results[i]
  {
  }

  lemma SomeGroup(groups: seq<seq<nat>>)
    requires |Flat(groups)| > 0
    ensures |groups| > 0
  {
  }

  /** positions tells where the group of each order key is. */
  ghost predicate Indexed(c: Ctx, groups: seq<seq<nat>>, positions: map<string, nat>) {
    && (forall p :: 0 <= p < |groups| ==> groups[p] != [] && InRange(c, groups[p]))
    && (forall key :: key in positions ==> positions[key] < |groups| && Head(c, groups[positions[key]]) == key)
    && (forall p :: 0 <= p < |groups| ==> Head(c, groups[p]) in positions && positions[Head(c, groups[p])] == p)
  }

  lemma NoneIndexed(c: Ctx)
    ensures Indexed(c, [], map[])
  {
  }

  /** Indexed reads only the order key of every group. */
  lemma SameIndex(c: Ctx, groups: seq<seq<nat>>, positions: map<string, nat>, p: nat, i: nat)
    requires Indexed(c, groups, positions) && p < |groups| && i < |c.msgs|
    ensures Indexed(c, groups[p := groups[p] + [i]], positions)
  {
    var r := groups[p := groups[p] + [i]];
    forall q | 0 <= q < |r| ensures r[q] != [] && InRange(c, r[q]) && Head(c, r[q]) == Head(c, groups[q]) {
    }
  }

  lemma NextIndex(c: Ctx, groups: seq<seq<nat>>, positions: map<string, nat>, i: nat)
    requires Indexed(c, groups, positions) && i < |c.msgs| && c.OrderKey(i) !in positions
    ensures Indexed(c, groups + [[i]], positions[c.OrderKey(i) := |groups|])
  {
    var r := groups + [[i]];
    forall q | 0 <= q < |r|
      ensures r[q] != [] && InRange(c, r[q])
      ensures Head(c, r[q]) == if q < |groups| then Head(c, groups[q]) else c.OrderKey(i)
    {
    }
  }

  lemma IndexedStep(c: Ctx, groups: seq<seq<nat>>, positions: map<string, nat>, i: nat)
    requires i < |c.msgs| && Indexed(c, groups, positions)
    ensures forall p :: 0 <= p < |groups| ==> groups[p] != [] && InRange(c, groups[p])
    ensures var key := c.OrderKey(i);
      if key in positions then
        && positions[key] < |groups|
        && AddToGroup(c, groups, i) == groups[positions[key] := groups[positions[key]] + [i]]
        && Indexed(c, AddToGroup(c, groups, i), positions)
      else
        && AddToGroup(c, groups, i) == groups + [[i]]
        && Indexed(c, AddToGroup(c, groups, i), positions[key := |groups|])
  {
    var key := c.OrderKey(i);
    if key in positions {
      AddsToPosition(c, groups, i, positions[key]);
      SameIndex(c, groups, positions, positions[key], i);
    } else {
      AddsGroup(c, groups, i);
      NextIndex(c, groups, positions, i);
    }
  }

  /** The keys of the first n messages that were not acked. */
  function NonAcked(c: Ctx, indexes: seq<nat>, applied: seq<Result>, n: nat): set<string>
    requires InRange(c, indexes) && |applied| == |indexes| && n <= |indexes|
  {
    set p | 0 <= p < n && !Acked(applied[p]) :: c.Key(indexes[p])
  }

  lemma NoneNonAcked(c: Ctx, indexes: seq<nat>, applied: seq<Result>)
    requires InRange(c, indexes) && |applied| == |indexes|
    ensures NonAcked(c, indexes, applied, 0) == {}
  {
  }

  lemma NonAckedNext(c: Ctx, indexes: seq<nat>, applied: seq<Result>, i: nat)
    requires InRange(c, indexes) && |applied| == |indexes| && i < |indexes|
    ensures NonAcked(c, indexes, applied, i + 1) ==
      NonAcked(c, indexes, applied, i) + (if Acked(applied[i]) then {} else {c.Key(indexes[i])})
  {
    hide Acked;
  }

  lemma NonAckedIsReleased(c: Ctx, indexes: seq<nat>, applied: seq<Result>)
    requires InRange(c, indexes) && |applied| == |indexes| && NoRepeat(indexes)
    ensures NonAcked(c, indexes, applied, |indexes|) == Released(c, indexes, Verdicts(indexes, applied))
  {
    hide Verdicts, Acked;
    var verdicts := Verdicts(indexes, applied);
    forall p | 0 <= p < |indexes| ensures indexes[p] in verdicts && verdicts[indexes[p]] == applied[p] {
      VerdictsAt(indexes, applied, p);
    }
    forall i | i in indexes ensures exists p :: 0 <= p < |indexes| && indexes[p] == i {
    }
  }

  /** The handler: its options, the table it shares, and the state of one call. */
  class Handler {
    const c: Ctx
    const results: array<Result>
    var processed: set<string>
    var log: seq<nat>
    var budget: nat
    var writes: seq<nat>
    var trace: seq<Entry>

    ghost predicate Valid()
      reads this
    {
      results.Length == |c.msgs|
    }

    ghost function Contents(): (s: State)
      reads this, results
    {
      State(processed, log, budget, results[..], writes, trace)
    }

    constructor (opts: Ctx, retryBudget: int, table: set<string>)
      ensures Valid() && fresh(results)
      ensures c == Normalised(opts)
      ensures Contents() == Initial(c, table, RetryBudget(retryBudget))
    {
      c := if opts.transientDelay < 0 then opts.(transientDelay := 0) else opts;
      results := new Result[|opts.msgs|](_ => Result(VerdictNak, 0, None, 0));
      processed, log, writes, trace := table, [], [], [];
      budget := if retryBudget == 0 then DEFAULT_RETRY_BUDGET else if retryBudget < 0 then 0 else retryBudget;
      new;
      assert results[..] == seq(|c.msgs|, _ => Result(VerdictNak, 0, None, 0));
    }

    /** The first message of every key in subset, with the keys. */
    method FirstOfEachKey(subset: seq<nat>) returns (selected: seq<nat>, keys: seq<string>)
      requires InRange(c, subset) && c.dedup
      ensures selected == Fresh(c, subset, {})
      ensures |keys| == |selected| && forall p :: 0 <= p < |keys| ==> keys[p] == c.Key(selected[p])
    {
      hide Fresh;
      selected, keys := [], [];
      var seen: set<string> := {};
      var n := 0;
      FreshOfNone(c, subset);
      while n < |subset|
        invariant 0 <= n <= |subset|
        invariant selected == Fresh(c, subset[..n], {})
        invariant seen == Keys(c, subset[..n])
        invariant |keys| == |selected| && forall p :: 0 <= p < |keys| ==> keys[p] == c.Key(selected[p])
      {
        var key := c.Key(subset[n]);
        FreshStep(c, subset, n);
        if key !in seen {
          seen, selected, keys := seen + {key}, selected + [subset[n]], keys + [key];
        }
        n := n + 1;
      }
      assert subset[..n] == subset;
    }

    /** Inserts the keys that are not in the table; claimed holds the inserted ones. */
    method ClaimKeys(keys: seq<string>) returns (claimed: set<string>)
      modifies `processed
      ensures claimed == SetOf(keys) - old(processed)
      ensures processed == old(processed) + SetOf(keys)
    {
      claimed := {};
      var n := 0;
      while n < |keys|
        invariant 0 <= n <= |keys|
        invariant claimed == SetOf(keys[..n]) - old(processed)
        invariant processed == old(processed) + SetOf(keys[..n])
      {
        TakeOne(keys, n);
        if keys[n] !in processed {
          claimed, processed := claimed + {keys[n]}, processed + {keys[n]};
        }
        n := n + 1;
      }
      assert keys[..n] == keys;
    }

    /** Claims the keys of subset and returns its fresh messages with their keys. */
    method ClaimFresh(subset: seq<nat>) returns (indexes: seq<nat>, keys: seq<string>)
      requires Valid() && InRange(c, subset)
      modifies `processed
      ensures indexes == Fresh(c, subset, old(processed))
      ensures c.dedup ==> |keys| == |indexes| && forall p :: 0 <= p < |keys| ==> keys[p] == c.Key(indexes[p])
      ensures processed == if c.dedup then old(processed) + Keys(c, subset) else old(processed)
    {
      hide Fresh;
      ghost var table := processed;
      if !c.dedup {
        FreshWithoutDedup(c, subset, processed);
        return subset, [];
      }
      var selected, allKeys := FirstOfEachKey(subset);
      FirstsHaveAllKeys(c, subset);
      FreshIsNotIn(c, subset, processed);
      KeysListed(c, selected, allKeys);
      var claimed := ClaimKeys(allKeys);
      indexes, keys := [], [];
      var n := 0;
      while n < |selected|
        invariant 0 <= n <= |selected|
        invariant processed == table + Keys(c, subset)
        invariant indexes == NotIn(c, selected[..n], table)
        invariant |keys| == |indexes| && forall p :: 0 <= p < |keys| ==> keys[p] == c.Key(indexes[p])
      {
        TakeOne(selected, n);
        assert allKeys[n] in allKeys;
        if allKeys[n] in claimed {
          indexes, keys := indexes + [selected[n]], keys + [allKeys[n]];
        }
        n := n + 1;
      }
      assert selected[..n] == selected;
    }

    /** The first failure of every order key, and the keys with an ack after it. */
    method FirstFailures(indexes: seq<nat>, applied: seq<Result>)
      returns (firstFailure: map<string, nat>, violated: set<string>)
      requires InRange(c, indexes) && |applied| == |indexes|
      ensures Failures(c, indexes, applied, firstFailure, |indexes|)
      ensures Violated(c, indexes, applied, violated, |indexes|)
    {
      hide Failures, Violated, FailsBefore, ViolatedKey;
      firstFailure, violated := map[], {};
      NoFailures(c, indexes, applied);
      var i := 0;
      while i < |indexes|
        invariant 0 <= i <= |indexes|
        invariant Failures(c, indexes, applied, firstFailure, i)
        invariant Violated(c, indexes, applied, violated, i)
      {
        var key := c.OrderKey(indexes[i]);
        NextFailure(c, indexes, applied, firstFailure, i);
        NextViolation(c, indexes, applied, violated, i);
        if key in firstFailure {
          if Acked(applied[i]) {
            violated := violated + {key};
          }
        } else {
          if !Acked(applied[i]) {
            firstFailure := firstFailure[key := i];
          }
        }
        i := i + 1;
      }
    }

    /** The positions after the first failure of every order key with an ack after a failure. */
    method FindViolations(indexes: seq<nat>, applied: seq<Result>) returns (blocked: seq<nat>)
      requires InRange(c, indexes) && |applied| == |indexes|
      ensures blocked == OrderViolations(c, indexes, applied)
    {
      hide Failures, Violated, ViolatedKey, FailsBefore;
      var firstFailure, violated := FirstFailures(indexes, applied);
      blocked := [];
      var i := 0;
      while i < |indexes|
        invariant 0 <= i <= |indexes|
        invariant blocked == ViolationsUpTo(c, indexes, applied, i)
      {
        var key := c.OrderKey(indexes[i]);
        ViolationSeen(c, indexes, applied, firstFailure, violated, i);
        if key in violated {
          if i > firstFailure[key] {
            blocked := blocked + [indexes[i]];
          }
        }
        i := i + 1;
      }
    }

    /** The handler's verdicts by message; the claims of non-acked messages are deleted again. */
    method Judge(indexes: seq<nat>, keys: seq<string>, applied: seq<Result>, releaseErr: Option<Error>)
      returns (verdicts: map<nat, Result>, err: Option<Error>)
      requires Valid() && InRange(c, indexes) && |applied| == |indexes|
      requires NoRepeat(indexes)
      requires c.dedup ==> |keys| == |indexes| && forall p :: 0 <= p < |keys| ==> keys[p] == c.Key(indexes[p])
      modifies `processed
      ensures verdicts == Verdicts(indexes, applied)
      ensures err == if c.dedup && Released(c, indexes, verdicts) != {} then releaseErr else None
      ensures processed == if c.dedup && err.None? then old(processed) - Released(c, indexes, verdicts) else old(processed)
    {
      hide NonAcked, Released, Acked;
      verdicts := map[];
      var released: set<string> := {};
      var i := 0;
      NoneNonAcked(c, indexes, applied);
      while i < |indexes|
        invariant 0 <= i <= |indexes|
        invariant processed == old(processed)
        invariant verdicts == Verdicts(indexes[..i], applied[..i])
        invariant released == if c.dedup then NonAcked(c, indexes, applied, i) else {}
      {
        TakeOne(indexes, i);
        TakeOne(applied, i);
        NonAckedNext(c, indexes, applied, i);
        verdicts := verdicts[indexes[i] := applied[i]];
        if !Acked(applied[i]) && c.dedup {
          released := released + {keys[i]};
        }
        i := i + 1;
      }
      assert indexes[..i] == indexes && applied[..i] == applied;
      NonAckedIsReleased(c, indexes, applied);
      err := None;
      if released != {} {
        if releaseErr.Some? {
          return verdicts, releaseErr;
        }
        processed := processed - released;
      } else {
        assert processed - {} == processed;
      }
    }

    /** The body of one transaction, up to the commit. */
    method Transact(subset: seq<nat>, around: Surroundings) returns (outcome: Outcome)
      requires Valid() && InRange(c, subset) && Ascending(subset)
      requires around == c.oracle.around(|trace|)
      modifies `processed, `log
      ensures outcome == Ending(c, subset, old(processed), |trace|)
      ensures outcome.Committed? ==>
        var indexes := Fresh(c, subset, old(processed));
        && log == old(log) + AckedOf(indexes, outcome.verdicts)
        && processed == if c.dedup then old(processed) + Keys(c, subset) - Released(c, indexes, outcome.verdicts)
                        else old(processed)
    {
      hide Fresh, OrderViolations, Verdicts, AckedOf, Released;
      FreshAscends(c, subset, processed);
      if c.dedup && around.claimErr.Some? {
        return RolledBack(Fault(around.claimErr.value));
      }
      var indexes, keys := ClaimFresh(subset);
      AscendsNoRepeat(indexes);
      var verdicts: map<nat, Result> := map[];
      NothingReleased(c, indexes);
      if indexes != [] {
        match c.oracle.apply(|trace|, indexes)
        case Panicked => return RolledBack(Fault(ERR_HANDLER_PANIC));
        case Refused(err) => return RolledBack(Fault(err));
        case Answered(applied) =>
          if c.perMessage {
            if |applied| != |indexes| {
              return RolledBack(Fault(ERR_MISSING_RESULT));
            }
            if c.ordered {
              var blocked := FindViolations(indexes, applied);
              if blocked != [] {
                return RolledBack(Violation(blocked));
              }
            }
            var err;
            verdicts, err := Judge(indexes, keys, applied, around.releaseErr);
            if err.Some? {
              return RolledBack(Fault(err.value));
            }
          }
      }
      if around.commitErr.Some? {
        return RolledBack(Fault(around.commitErr.value));
      }
      log := log + AckedOf(indexes, verdicts);
      outcome := Committed(verdicts);
    }

    /** One transaction: its changes are kept when it commits and undone when it does not. */
    method Attempt(subset: seq<nat>) returns (outcome: Outcome)
      requires Valid() && InRange(c, subset) && Ascending(subset)
      modifies `processed, `log, `trace
      ensures (Contents(), outcome) == Attempts.Attempt(c, subset, old(Contents()))
    {
      hide Fresh, Ending, Verdicts, AckedOf, Released;
      var around := c.oracle.around(|trace|);
      processed := processed + around.arrivals;
      var table, done := processed, log;
      outcome := Transact(subset, around);
      if outcome.RolledBack? {
        processed, log := table, done;
      }
      trace := trace + [Entry(subset, outcome)];
    }

    method Record(subset: seq<nat>, verdicts: map<nat, Result>)
      requires Valid() && InRange(c, subset)
      modifies `writes, results
      ensures Contents() == Attempts.Record(old(Contents()), subset, verdicts)
    {
      var n := 0;
      while n < |subset|
        invariant 0 <= n <= |subset|
        invariant forall i :: 0 <= i < results.Length ==>
          results[i] == if i !in subset[..n] then old(results[i]) else if i in verdicts then verdicts[i] else Ack()
        invariant writes == old(writes) + subset[..n]
      {
        TakeOne(subset, n);
        var index := subset[n];
        results[index] := if index in verdicts then verdicts[index] else Ack();
        writes := writes + [index];
        n := n + 1;
      }
      assert subset[..n] == subset;
    }

    /** Writes one result to every slot of subset. */
    method Answer(subset: seq<nat>, result: Result)
      requires Valid() && InRange(c, subset)
      modifies `writes, results
      ensures Contents() == Write(old(Contents()), subset, i => result)
    {
      var n := 0;
      while n < |subset|
        invariant 0 <= n <= |subset|
        invariant forall i :: 0 <= i < results.Length ==>
          results[i] == if i in subset[..n] then result else old(results[i])
        invariant writes == old(writes) + subset[..n]
      {
        TakeOne(subset, n);
        results[subset[n]] := result;
        writes := writes + [subset[n]];
        n := n + 1;
      }
      assert subset[..n] == subset;
    }

    method GroupByOrderKey() returns (groups: seq<seq<nat>>)
      requires Valid()
      ensures groups == GroupsOf(c, |c.msgs|)
    {
      hide Indexed, AddToGroup;
      NoneIndexed(c);
      groups := [];
      var positions: map<string, nat> := map[];
      var i := 0;
      while i < |c.msgs|
        invariant 0 <= i <= |c.msgs|
        invariant groups == GroupsOf(c, i)
        invariant Indexed(c, groups, positions)
      {
        IndexedStep(c, groups, positions, i);
        var key := c.OrderKey(i);
        if key in positions {
          var position := positions[key];
          groups := groups[position := groups[position] + [i]];
        } else {
          positions := positions[key := |groups|];
          groups := groups + [[i]];
        }
        i := i + 1;
      }
    }

    method Flatten(groups: seq<seq<nat>>) returns (subset: seq<nat>)
      ensures subset == Sort(Flat(groups))
    {
      subset := [];
      var n := 0;
      while n < |groups|
        invariant 0 <= n <= |groups|
        invariant subset == Flat(groups[..n])
      {
        TakeOne(groups, n);
        FlatConcat(groups[..n], [groups[n]]);
        assert Flat([groups[n]]) == groups[n] + Flat([groups[n]][1..]) == groups[n];
        subset := subset + groups[n];
        n := n + 1;
      }
      assert groups[..n] == groups;
      subset := Sort(subset);
    }

    method Without(groups: seq<seq<nat>>, removed: seq<nat>) returns (kept: seq<seq<nat>>)
      ensures kept == WithoutIndexes(groups, removed)
    {
      kept := [];
      var n := 0;
      while n < |groups|
        invariant 0 <= n <= |groups|
        invariant kept == WithoutIndexes(groups[..n], removed)
      {
        TakeOne(groups, n);
        var rest: seq<nat> := [];
        var k := 0;
        while k < |groups[n]|
          invariant 0 <= k <= |groups[n]|
          invariant rest == Keep(groups[n][..k], removed)
        {
          TakeOne(groups[n], k);
          if groups[n][k] !in removed {
            rest := rest + [groups[n][k]];
          }
          k := k + 1;
        }
        assert groups[n][..k] == groups[n];
        if rest != [] {
          kept := kept + [rest];
        }
        n := n + 1;
      }
      assert groups[..n] == groups;
    }

    method Bisect(subset: seq<nat>)
      requires Valid() && subset != [] && InRange(c, subset) && Ascending(subset)
      modifies this, results
      ensures Contents() == Bisection.Bisect(c, subset, old(Contents()))
      ensures budget <= old(budget)
      decreases |subset|
    {
      hide Attempts.Attempt, Attempts.Record, Write;
      while true
        invariant Bisection.Bisect(c, subset, Contents()) == Bisection.Bisect(c, subset, old(Contents()))
        invariant budget <= old(budget)
        decreases budget
      {
        label before:
        var outcome := Attempt(subset);
        match outcome
        case Committed(verdicts) =>
          Record(subset, verdicts);
          return;
        case RolledBack(failure) =>
          var err := FaultOf(failure);
          if c.transient(err) {
            if budget > 0 {
              budget := budget - 1;
            } else {
              Answer(subset, TransientResult(c, err));
              return;
            }
          } else {
            if |subset| == 1 {
              Answer(subset, Nak(err));
              return;
            }
            var middle := |subset| / 2;
            Bisect(subset[..middle]);
            Bisect(subset[middle..]);
            return;
          }
      }
    }

    method FailedIn(group: seq<nat>, verdicts: map<nat, Result>) returns (failed: bool)
      ensures failed == Bisection.FailedIn(group, verdicts)
    {
      var n := 0;
      while n < |group|
        invariant 0 <= n <= |group|
        invariant forall p :: 0 <= p < n ==> group[p] in verdicts ==> Acked(verdicts[group[p]])
      {
        if group[n] in verdicts && !Acked(verdicts[group[n]]) {
          return true;
        }
        n := n + 1;
      }
      return false;
    }

    /** Group bisection: violations and retries stay in the loop, a failing half is bisected on its own. */
    method BisectGroups(groups: seq<seq<nat>>)
      requires Valid() && ValidGroups(c, groups)
      modifies this, results
      ensures Contents() == Bisection.BisectGroups(c, groups, old(Contents()))
      ensures budget <= old(budget)
      decreases |Flat(groups)|, 1
    {
      hide Attempts.Attempt, Attempts.Record, Write, ValidGroups, WithoutIndexes, Flat, Sort, Bisection.Ordered;
      var rest := groups;
      while true
        invariant ValidGroups(c, rest) && |Flat(rest)| <= |Flat(groups)|
        invariant Bisection.BisectGroups(c, rest, Contents()) == Bisection.BisectGroups(c, groups, old(Contents()))
        invariant budget <= old(budget)
        decreases |Flat(rest)|, budget
      {
        SubsetOfValid(c, rest);
        var subset := Flatten(rest);
        if subset == [] {
          return;
        }
        ghost var s := Contents();
        ViolationBlocks(c, subset, s);
        var outcome := Attempt(subset);
        match outcome
        case Committed(verdicts) =>
          Record(subset, verdicts);
          return;
        case RolledBack(Violation(blocked)) =>
          BlockedShrinks(c, rest, blocked);
          BlockedInRange(c, subset, blocked);
          Answer(blocked, Blocked(c));
          rest := Without(rest, blocked);
        case RolledBack(Fault(err)) =>
          if c.transient(err) {
            if budget > 0 {
              budget := budget - 1;
            } else {
              Answer(subset, TransientResult(c, err));
              return;
            }
          } else {
            if |rest| == 1 {
              OneGroup(c, rest);
              var failed := Ordered(rest[0], Some(err));
              return;
            }
            var middle := |rest| / 2;
            SomeGroup(rest);
            HalvesShrink(c, rest, middle);
            BisectGroups(rest[..middle]);
            BisectGroups(rest[middle..]);
            return;
          }
      }
    }

    /** Bisection inside one order key; failed tells whether some message of the group was not acked. */
    method Ordered(group: seq<nat>, known: Option<Error>) returns (failed: bool)
      requires Valid() && InRange(c, group) && Ascending(group) && (known.Some? ==> group != [])
      modifies this, results
      ensures (Contents(), failed) == Bisection.Ordered(c, group, known, false, old(Contents()))
      ensures budget <= old(budget)
      decreases |group|, 0
    {
      hide Attempts.Attempt, Attempts.Record, Write, Keep, Bisection.FailedIn, WithoutIndexes, Blocked, TransientResult, Nak;
      failed := false;
      var err, rest := known, group;
      while err.None?
        invariant InRange(c, rest) && Ascending(rest) && |rest| <= |group| && (err.Some? ==> rest != [])
        invariant Bisection.Ordered(c, rest, err, failed, Contents()) ==
                  Bisection.Ordered(c, group, known, false, old(Contents()))
        invariant budget <= old(budget)
        decreases |rest|, budget, err.None?
      {
        if rest == [] {
          return;
        }
        ghost var s := Contents();
        ViolationBlocks(c, rest, s);
        var outcome := Attempt(rest);
        match outcome
        case Committed(verdicts) =>
          Record(rest, verdicts);
          var unacked := FailedIn(rest, verdicts);
          failed := failed || unacked;
          return;
        case RolledBack(Violation(blocked)) =>
          KeepRest(c, rest, blocked);
          Answer(blocked, Blocked(c));
          failed := true;
          var remaining := Without([rest], blocked);
          if remaining == [] {
            return;
          }
          rest := remaining[0];
        case RolledBack(Fault(fault)) =>
          if c.transient(fault) {
            if budget > 0 {
              budget := budget - 1;
            } else {
              Answer(rest, TransientResult(c, fault));
              failed := true;
              return;
            }
          } else {
            err := Some(fault);
          }
      }
      if |rest| == 1 {
        Answer(rest, Nak(err.value));
        failed := true;
        return;
      }
      var middle := |rest| / 2;
      var prefixFailed := Ordered(rest[..middle], None);
      if prefixFailed {
        Answer(rest[middle..], Blocked(c));
        failed := true;
        return;
      }
      var suffixFailed := Ordered(rest[middle..], None);
      failed := suffixFailed || failed;
    }

    /** Writes into every non-acked result the previous non-acked message of its order key. */
    method Link()
      requires Valid()
      modifies results
      ensures results[..] == LinkAll(c, old(results[..]))
    {
      hide LastFailed, Linked, Tracks;
      ghost var before := results[..];
      var last: map<string, nat> := map[];
      var i := 0;
      TracksNothing(c, before);
      while i < results.Length
        invariant 0 <= i <= results.Length
        invariant forall k :: 0 <= k < i ==> results[k] == Linked(c, before, k)
        invariant forall k :: i <= k < results.Length ==> results[k] == before[k]
        invariant Tracks(c, before, last, i)
      {
        TracksStep(c, before, last, i);
        if !Acked(results[i]) {
          var key := c.OrderKey(i);
          if key in last {
            results[i] := results[i].(after := last[key] + 1);
          }
          last := last[key := i];
        }
        i := i + 1;
      }
    }

    /** The answer to the whole batch. */
    method Handle()
      requires Valid() && Contents() == Initial(c, processed, budget)
      modifies this, results
      ensures results[..] == Answers(c, old(processed), old(budget))
      ensures Contents().(results := []) == Bisection.Handle(c, old(processed), old(budget)).(results := [])
    {
      hide Bisection.Bisect, Bisection.BisectGroups, Linked;
      if results.Length == 0 {
        assert results[..] == [];
        return;
      }
      if c.ordered {
        var groups := GroupByOrderKey();
        GroupsOfValid(c, |c.msgs|);
        BisectGroups(groups);
        Link();
      } else {
        Bisect(All(|c.msgs|));
      }
    }
  }
}
