/** Index groups by order key: building, flattening, filtering and splitting them. */
module Groups {
  import opened BatchTypes

  /** The order key of a group. */
  function Head(c: Ctx, group: seq<nat>): string
    requires group != [] && InRange(c, group)
  {
    c.OrderKey(group[0])
  }

  /** A non-empty, ascending run of messages of one order key. */
  ghost predicate ValidGroup(c: Ctx, group: seq<nat>) {
    && group != []
    && InRange(c, group)
    && Ascending(group)
    && forall p :: 0 <= p < |group| ==> c.OrderKey(group[p]) == Head(c, group)
  }

  ghost predicate ValidGroups(c: Ctx, groups: seq<seq<nat>>) {
    && (forall p :: 0 <= p < |groups| ==> ValidGroup(c, groups[p]))
    && (forall p, q :: 0 <= p < q < |groups| ==> Head(c, groups[p]) != Head(c, groups[q]))
  }

  /** Appends a message to the group of its order key, or opens a group for it. */
  function AddToGroup(c: Ctx, groups: seq<seq<nat>>, i: nat): (r: seq<seq<nat>>)
    requires i < |c.msgs|
    requires forall p :: 0 <= p < |groups| ==> groups[p] != [] && InRange(c, groups[p])
    ensures forall p :: 0 <= p < |r| ==> r[p] != [] && InRange(c, r[p])
  {
    if groups == [] then [[i]]
    else if Head(c, groups[0]) == c.OrderKey(i) then [groups[0] + [i]] + groups[1..]
    else [groups[0]] + AddToGroup(c, groups[1..], i)
  }

  /** The groups of messages 0..n, in order of first appearance. */
  function GroupsOf(c: Ctx, n: nat): (r: seq<seq<nat>>)
    requires n <= |c.msgs|
    ensures forall p :: 0 <= p < |r| ==> r[p] != [] && InRange(c, r[p])
  {
    if n == 0 then [] else AddToGroup(c, GroupsOf(c, n - 1), n - 1)
  }

  function Flat(groups: seq<seq<nat>>): seq<nat> {
    if groups == [] then [] else groups[0] + Flat(groups[1..])
  }

  function Insert(x: nat, s: seq<nat>): seq<nat> {
    if s == [] || x <= s[0] then [x] + s else [s[0]] + Insert(x, s[1..])
  }

  function Sort(s: seq<nat>): seq<nat> {
    if s == [] then [] else Insert(s[0], Sort(s[1..]))
  }

  function Keep(group: seq<nat>, removed: seq<nat>): (r: seq<nat>) {
    if group == [] then []
    else
      Keep(group[..|group| - 1], removed) +
      (if group[|group| - 1] in removed then [] else [group[|group| - 1]])
  }

  function WithoutIndexes(groups: seq<seq<nat>>, removed: seq<nat>): seq<seq<nat>> {
    if groups == [] then []
    else
      var init := WithoutIndexes(groups[..|groups| - 1], removed);
      var rest := Keep(groups[|groups| - 1], removed);
      if rest == [] then init else init + [rest]
  }

  lemma HeadAndTail(a: seq<seq<nat>>, b: seq<seq<nat>>)
    requires a != []
    ensures Flat(a + b) == a[0] + Flat(a[1..] + b) && Flat(a) == a[0] + Flat(a[1..])
  {
    assert (a + b)[0] == a[0] && (a + b)[1..] == a[1..] + b;
  }

  lemma {:induction false} FlatConcat(a: seq<seq<nat>>, b: seq<seq<nat>>)
    ensures Flat(a + b) == Flat(a) + Flat(b)
  {
    if a == [] {
      assert a + b == b;
    } else {
      FlatConcat(a[1..], b);
      HeadAndTail(a, b);
      hide Flat;
      AppendAssociates(a[0], Flat(a[1..]), Flat(b));
    }
  }

  lemma {:induction false} FlatMember(groups: seq<seq<nat>>, i: nat)
    ensures i in Flat(groups) <==> exists p :: 0 <= p < |groups| && i in groups[p]
  {
    if groups != [] {
      FlatMember(groups[1..], i);
      if i in Flat(groups[1..]) {
        var p :| 0 <= p < |groups[1..]| && i in groups[1..][p];
        assert i in groups[p + 1];
      }
      if p :| 0 <= p < |groups| && i in groups[p] && p > 0 {
        assert groups[p] == groups[1..][p - 1];
      }
    }
  }

  lemma {:induction false} InsertAdds(x: nat, s: seq<nat>)
    ensures multiset(Insert(x, s)) == multiset{x} + multiset(s)
    ensures forall i :: i in Insert(x, s) <==> i == x || i in s
  {
    if s != [] && s[0] < x {
      InsertAdds(x, s[1..]);
      assert s == [s[0]] + s[1..];
    }
  }

  lemma {:induction false} InsertSorts(x: nat, s: seq<nat>)
    requires forall p, q :: 0 <= p < q < |s| ==> s[p] <= s[q]
    ensures forall p, q :: 0 <= p < q < |Insert(x, s)| ==> Insert(x, s)[p] <= Insert(x, s)[q]
  {
    if s != [] && s[0] < x {
      InsertSorts(x, s[1..]);
      InsertAdds(x, s[1..]);
      var rest := Insert(x, s[1..]);
      forall q | 0 <= q < |rest| ensures s[0] <= rest[q] {
        assert rest[q] in rest;
      }
    }
  }

  lemma {:induction false} SortSorts(s: seq<nat>)
    ensures multiset(Sort(s)) == multiset(s)
    ensures forall p, q :: 0 <= p < q < |Sort(s)| ==> Sort(s)[p] <= Sort(s)[q]
  {
    if s != [] {
      SortSorts(s[1..]);
      InsertSorts(s[0], Sort(s[1..]));
      InsertAdds(s[0], Sort(s[1..]));
      assert s == [s[0]] + s[1..];
    }
  }

  lemma SortMember(s: seq<nat>, i: nat)
    ensures i in Sort(s) <==> i in s
    ensures |Sort(s)| == |s|
  {
    SortSorts(s);
    assert i in Sort(s) <==> i in multiset(Sort(s));
    assert i in s <==> i in multiset(s);
    assert |multiset(Sort(s))| == |Sort(s)|;
  }

  ghost predicate NoRepeat(s: seq<nat>) {
    forall p, q :: 0 <= p < q < |s| ==> s[p] != s[q]
  }

  lemma {:induction false} NoRepeatCount(s: seq<nat>, i: nat)
    requires NoRepeat(s)
    ensures multiset(s)[i] <= 1
  {
    if s != [] {
      NoRepeatCount(s[1..], i);
      assert s == [s[0]] + s[1..];
      if s[0] == i {
        assert i !in s[1..];
      }
    }
  }

  lemma TwiceCounts(s: seq<nat>, p: nat, q: nat)
    requires p < q < |s| && s[p] == s[q]
    ensures multiset(s)[s[p]] >= 2
  {
    assert s == s[..q] + s[q..];
    assert s[p] == s[..q][p];
    assert s[q..][0] == s[q];
    assert s[p] in multiset(s[..q]) && s[p] in multiset(s[q..]);
  }

  lemma SortAscends(s: seq<nat>)
    requires NoRepeat(s)
    ensures Ascending(Sort(s))
  {
    SortSorts(s);
    var r := Sort(s);
    forall p, q | 0 <= p < q < |r| ensures r[p] < r[q] {
      NoRepeatCount(s, r[p]);
      if r[p] == r[q] {
        TwiceCounts(r, p, q);
      }
    }
  }

  /** The order keys of the groups. */
  ghost function Heads(c: Ctx, groups: seq<seq<nat>>): set<string>
    requires forall p :: 0 <= p < |groups| ==> groups[p] != [] && InRange(c, groups[p])
  {
    set p | 0 <= p < |groups| :: Head(c, groups[p])
  }

  lemma FlatHead(c: Ctx, groups: seq<seq<nat>>, i: nat)
    requires ValidGroups(c, groups) && i in Flat(groups)
    ensures i < |c.msgs| && c.OrderKey(i) in Heads(c, groups)
  {
    FlatMember(groups, i);
    var p :| 0 <= p < |groups| && i in groups[p];
    assert c.OrderKey(i) == Head(c, groups[p]);
  }

  lemma TailValid(c: Ctx, groups: seq<seq<nat>>)
    requires ValidGroups(c, groups) && groups != []
    ensures ValidGroups(c, groups[1..]) && Head(c, groups[0]) !in Heads(c, groups[1..])
    ensures Heads(c, groups) == {Head(c, groups[0])} + Heads(c, groups[1..])
  {
    var rest := groups[1..];
    assert forall p :: 0 <= p < |rest| ==> rest[p] == groups[p + 1];
    forall p | 0 < p < |groups| ensures Head(c, groups[p]) in Heads(c, rest) {
      assert rest[p - 1] == groups[p];
    }
  }

  lemma {:induction false} FlatOfValid(c: Ctx, groups: seq<seq<nat>>)
    requires ValidGroups(c, groups)
    ensures InRange(c, Flat(groups)) && NoRepeat(Flat(groups))
    ensures groups != [] ==> Flat(groups) != []
  {
    if groups != [] {
      var rest := groups[1..];
      TailValid(c, groups);
      FlatOfValid(c, rest);
      forall q | 0 <= q < |Flat(rest)| ensures Flat(rest)[q] !in groups[0] {
        FlatHead(c, rest, Flat(rest)[q]);
      }
    }
  }

  /** The set a bisected group call works on, sorted. */
  lemma SubsetOfValid(c: Ctx, groups: seq<seq<nat>>)
    requires ValidGroups(c, groups)
    ensures var subset := Sort(Flat(groups));
      InRange(c, subset) && Ascending(subset) && |subset| == |Flat(groups)|
      && forall i :: i in subset <==> i in Flat(groups)
  {
    FlatOfValid(c, groups);
    SortAscends(Flat(groups));
    SortSorts(Flat(groups));
    var subset := Sort(Flat(groups));
    forall i ensures i in subset <==> i in Flat(groups) {
      SortMember(Flat(groups), i);
    }
    SortMember(Flat(groups), 0);
    forall p | 0 <= p < |subset| ensures subset[p] < |c.msgs| {
      assert subset[p] in subset;
      assert subset[p] in Flat(groups);
    }
  }

  /** Two messages of one order key are in the same group. */
  lemma SameGroup(c: Ctx, groups: seq<seq<nat>>, p: nat, q: nat, i: nat, j: nat)
    requires ValidGroups(c, groups) && p < |groups| && q < |groups|
    requires i in groups[p] && j in groups[q] && i < |c.msgs| && j < |c.msgs|
    requires c.OrderKey(i) == c.OrderKey(j)
    ensures p == q
  {
    assert c.OrderKey(i) == Head(c, groups[p]);
    assert c.OrderKey(j) == Head(c, groups[q]);
  }

  lemma {:induction false} KeepMember(group: seq<nat>, removed: seq<nat>, i: nat)
    ensures i in Keep(group, removed) <==> i in group && i !in removed
  {
    if group != [] {
      KeepMember(group[..|group| - 1], removed, i);
      assert group == group[..|group| - 1] + [group[|group| - 1]];
    }
  }

  lemma {:induction false} KeepAscends(group: seq<nat>, removed: seq<nat>)
    requires Ascending(group)
    ensures Ascending(Keep(group, removed))
    ensures |Keep(group, removed)| <= |group|
    ensures (exists i :: i in group && i in removed) ==> |Keep(group, removed)| < |group|
  {
    if group != [] {
      var init, last := group[..|group| - 1], group[|group| - 1];
      KeepAscends(init, removed);
      forall p | 0 <= p < |Keep(init, removed)| ensures Keep(init, removed)[p] < last {
        KeepMember(init, removed, Keep(init, removed)[p]);
        assert Keep(init, removed)[p] in Keep(init, removed);
      }
      if i :| i in group && i in removed {
        assert i in init || i == last;
      }
    }
  }

  lemma KeepValid(c: Ctx, group: seq<nat>, removed: seq<nat>)
    requires ValidGroup(c, group)
    ensures Keep(group, removed) != [] ==>
      ValidGroup(c, Keep(group, removed)) && Head(c, Keep(group, removed)) == Head(c, group)
  {
    var kept := Keep(group, removed);
    KeepAscends(group, removed);
    forall p | 0 <= p < |kept| ensures kept[p] in group {
      assert kept[p] in kept;
      KeepMember(group, removed, kept[p]);
    }
  }

  lemma {:induction false} WithoutMember(groups: seq<seq<nat>>, removed: seq<nat>, i: nat)
    ensures i in Flat(WithoutIndexes(groups, removed)) <==> i in Flat(groups) && i !in removed
  {
    if groups != [] {
      var init, last := groups[..|groups| - 1], groups[|groups| - 1];
      var kept := WithoutIndexes(init, removed);
      assert groups == init + [last];
      FlatConcat(init, [last]);
      assert Flat([last]) == last + Flat([last][1..]);
      WithoutMember(init, removed, i);
      KeepMember(last, removed, i);
      FlatConcat(kept, [Keep(last, removed)]);
      assert Flat([Keep(last, removed)]) == Keep(last, removed) + Flat([Keep(last, removed)][1..]);
    }
  }

  lemma {:induction false} WithoutShrinks(groups: seq<seq<nat>>, removed: seq<nat>)
    requires forall p :: 0 <= p < |groups| ==> Ascending(groups[p])
    ensures |Flat(WithoutIndexes(groups, removed))| <= |Flat(groups)|
    ensures (exists i :: i in Flat(groups) && i in removed) ==>
      |Flat(WithoutIndexes(groups, removed))| < |Flat(groups)|
  {
    if groups != [] {
      var init, last := groups[..|groups| - 1], groups[|groups| - 1];
      var kept := WithoutIndexes(init, removed);
      assert groups == init + [last];
      FlatConcat(init, [last]);
      assert Flat([last]) == last + Flat([last][1..]);
      WithoutShrinks(init, removed);
      KeepAscends(last, removed);
      FlatConcat(kept, [Keep(last, removed)]);
      assert Flat([Keep(last, removed)]) == Keep(last, removed) + Flat([Keep(last, removed)][1..]);
      if i :| i in Flat(groups) && i in removed {
        assert i in Flat(init) || i in last;
      }
    }
  }

  lemma {:induction false} WithoutValid(c: Ctx, groups: seq<seq<nat>>, removed: seq<nat>)
    requires ValidGroups(c, groups)
    ensures ValidGroups(c, WithoutIndexes(groups, removed))
    ensures Heads(c, WithoutIndexes(groups, removed)) <= Heads(c, groups)
  {
    if groups != [] {
      var init, last := groups[..|groups| - 1], groups[|groups| - 1];
      InitValid(c, groups);
      WithoutValid(c, init, removed);
      KeepValid(c, last, removed);
      var kept, rest := WithoutIndexes(init, removed), Keep(last, removed);
      if rest != [] {
        hide WithoutIndexes, Keep, ValidGroup;
        SnocValid(c, kept, rest);
      }
    }
  }

  lemma InitValid(c: Ctx, groups: seq<seq<nat>>)
    requires groups != [] && ValidGroups(c, groups)
    ensures var init, last := groups[..|groups| - 1], groups[|groups| - 1];
      && ValidGroups(c, init) && ValidGroup(c, last)
      && Heads(c, init) <= Heads(c, groups) && Head(c, last) !in Heads(c, init) && Head(c, last) in Heads(c, groups)
  {
  }

  lemma SnocValid(c: Ctx, groups: seq<seq<nat>>, group: seq<nat>)
    requires ValidGroups(c, groups) && ValidGroup(c, group) && Head(c, group) !in Heads(c, groups)
    ensures ValidGroups(c, groups + [group]) && Heads(c, groups + [group]) == Heads(c, groups) + {Head(c, group)}
  {
    hide ValidGroup;
    var all := groups + [group];
    GroupsInRange(c, groups);
    GroupInRange(c, group);
    assert forall q :: 0 <= q < |groups| ==> all[q] == groups[q] && Head(c, groups[q]) in Heads(c, groups);
    assert all[|groups|] == group;
  }

  lemma GroupInRange(c: Ctx, group: seq<nat>)
    requires ValidGroup(c, group)
    ensures group != [] && InRange(c, group)
  {
  }

  lemma GroupsInRange(c: Ctx, groups: seq<seq<nat>>)
    requires ValidGroups(c, groups)
    ensures forall p :: 0 <= p < |groups| ==> groups[p] != [] && InRange(c, groups[p])
  {
  }

  lemma {:induction false} AddToGroupValid(c: Ctx, groups: seq<seq<nat>>, i: nat)
    requires ValidGroups(c, groups) && i < |c.msgs|
    requires forall p :: 0 <= p < |groups| ==> forall q :: 0 <= q < |groups[p]| ==> groups[p][q] < i
    ensures ValidGroups(c, AddToGroup(c, groups, i))
    ensures Heads(c, AddToGroup(c, groups, i)) == Heads(c, groups) + {c.OrderKey(i)}
  {
    var r := AddToGroup(c, groups, i);
    if groups == [] {
      assert r == [[i]];
      assert Head(c, r[0]) == c.OrderKey(i);
      assert Heads(c, r) == {Head(c, r[0])};
    } else if Head(c, groups[0]) == c.OrderKey(i) {
      TailValid(c, groups);
      assert r[1..] == groups[1..];
      assert ValidGroup(c, r[0]);
      ConsValid(c, r);
    } else {
      TailValid(c, groups);
      AddToGroupValid(c, groups[1..], i);
      assert r[1..] == AddToGroup(c, groups[1..], i);
      ConsValid(c, r);
    }
  }

  lemma ConsValid(c: Ctx, groups: seq<seq<nat>>)
    requires groups != [] && ValidGroup(c, groups[0]) && ValidGroups(c, groups[1..])
    requires Head(c, groups[0]) !in Heads(c, groups[1..])
    ensures ValidGroups(c, groups)
    ensures Heads(c, groups) == {Head(c, groups[0])} + Heads(c, groups[1..])
  {
    var rest := groups[1..];
    assert forall p :: 0 < p < |groups| ==> groups[p] == rest[p - 1];
    assert forall p :: 0 <= p < |rest| ==> Head(c, rest[p]) in Heads(c, rest);
    TailValid(c, groups);
  }

  lemma {:induction false} AddToGroupMember(c: Ctx, groups: seq<seq<nat>>, i: nat, j: nat)
    requires i < |c.msgs|
    requires forall p :: 0 <= p < |groups| ==> groups[p] != [] && InRange(c, groups[p])
    ensures j in Flat(AddToGroup(c, groups, i)) <==> j in Flat(groups) || j == i
  {
    var r := AddToGroup(c, groups, i);
    if groups == [] {
      assert Flat([[i]]) == [i] + Flat([[i]][1..]);
    } else if Head(c, groups[0]) == c.OrderKey(i) {
      assert r[1..] == groups[1..];
    } else {
      AddToGroupMember(c, groups[1..], i, j);
      assert r[1..] == AddToGroup(c, groups[1..], i);
    }
  }

  /** GroupsOf splits the batch into one valid group for each order key. */
  lemma {:induction false} GroupsOfValid(c: Ctx, n: nat)
    requires n <= |c.msgs|
    ensures ValidGroups(c, GroupsOf(c, n))
    ensures forall i: nat :: i in Flat(GroupsOf(c, n)) <==> i < n
  {
    hide ValidGroups, AddToGroup, Flat;
    if n == 0 {
      NoGroupsValid(c);
    } else {
      GroupsOfValid(c, n - 1);
      NextGroupValid(c, GroupsOf(c, n - 1), n - 1);
    }
  }

  lemma NoGroupsValid(c: Ctx)
    ensures ValidGroups(c, []) && Flat([]) == []
  {
  }

  lemma NextGroupValid(c: Ctx, groups: seq<seq<nat>>, n: nat)
    requires n < |c.msgs| && ValidGroups(c, groups)
    requires forall i: nat :: i in Flat(groups) <==> i < n
    ensures ValidGroups(c, AddToGroup(c, groups, n))
    ensures forall i: nat :: i in Flat(AddToGroup(c, groups, n)) <==> i <= n
  {
    hide AddToGroup, Flat;
    GroupsBelow(groups, n);
    AddToGroupValid(c, groups, n);
    forall j: nat ensures j in Flat(AddToGroup(c, groups, n)) <==> j <= n {
      AddToGroupMember(c, groups, n, j);
    }
  }

  lemma GroupsBelow(groups: seq<seq<nat>>, n: nat)
    requires forall i: nat :: i in Flat(groups) <==> i < n
    ensures forall p :: 0 <= p < |groups| ==> forall q :: 0 <= q < |groups[p]| ==> groups[p][q] < n
  {
    hide Flat;
    forall p, q | 0 <= p < |groups| && 0 <= q < |groups[p]| ensures groups[p][q] < n {
      FlatMember(groups, groups[p][q]);
      assert groups[p][q] in groups[p];
    }
  }

  lemma SameInside(a: seq<nat>, b: seq<nat>)
    requires multiset(a) == multiset(b)
    ensures forall i :: i in a <==> i in b
  {
    forall i ensures i in a <==> i in b {
      assert i in a <==> i in multiset(a);
      assert i in b <==> i in multiset(b);
    }
  }
}
