/** The packer wastes no room: a frame is closed only when the next event of its subject does not fit. */
module GreedyPacking {
  import opened MsgPack
  import opened Frames
  import opened FramePacking
  import opened Subjects
  import FrameIds

  /** No later group is on the subject of group g. */
  ghost predicate LastOfSubject(events: seq<Event>, groups: seq<Group>, g: nat)
    requires g < |groups|
  {
    forall k :: g < k < |groups| ==> SubjectOf(events, groups[k]) != SubjectOf(events, groups[g])
  }

  /** Why an event cannot be an element: no pattern has its subject, it belongs to a key-value bucket, it has no id, only the
      latest of its subject is sent, the server acts on one of its headers, or its element cannot be encoded or is too long. */
  lemma KeptOutIff(f: Framer, event: Event)
    ensures FrameElement(f, event).None? <==>
      || (forall k :: 0 <= k < |f.patterns| ==> !Matches(f.patterns[k], event.subject))
      || "$KV." <= event.subject
      || Lookup(event.headers, "Nats-Msg-Id") == ""
      || (exists k :: 0 <= k < |f.latestOnly| && f.latestOnly[k] <= event.subject)
      || (exists k :: 0 <= k < |event.headers| && KeepsFrameOut(event.headers[k].key))
      || f.codec.encode(ElementOf(event)).None?
      || |f.codec.encode(ElementOf(event)).value| + 5 > f.maxBytes
    ensures FrameElement(f, event).Some? ==> FrameElement(f, event) == f.codec.encode(ElementOf(event))
  {
    hide Matches, Lookup, KeepsFrameOut, ElementOf;
  }

  /** Groups a and b follow each other on their subject, and both hold encoded elements. */
  ghost predicate Follows(events: seq<Event>, groups: seq<Group>, a: nat, b: nat)
    requires a < b < |groups|
  {
    && groups[a].encoded != [] && groups[b].encoded != []
    && SubjectOf(events, groups[a]) == SubjectOf(events, groups[b])
    && forall k :: a < k < b ==> SubjectOf(events, groups[k]) != SubjectOf(events, groups[a])
  }

  /** The group has all the elements it may have, or this one would make it too long. */
  ghost predicate Full(f: Framer, group: Group, next: seq<Byte>) {
    |group.members| >= f.maxElements || 5 + |Concat(group.encoded)| + |next| > f.maxBytes
  }

  ghost predicate Greedy(f: Framer, events: seq<Event>, groups: seq<Group>) {
    forall a, b :: 0 <= a < b < |groups| && Follows(events, groups, a, b) ==> Full(f, groups[a], groups[b].encoded[0])
  }

  /** Only an event that cannot be an element is kept out of frames. */
  ghost predicate LoneIsUnframeable(f: Framer, events: seq<Event>, groups: seq<Group>) {
    forall k :: 0 <= k < |groups| && groups[k].encoded == [] ==>
      |groups[k].members| == 1 && groups[k].members[0] < |events| && FrameElement(f, events[groups[k].members[0]]).None?
  }

  /** The last group of a subject is open, if it holds encoded elements. */
  ghost predicate LastIsOpen(events: seq<Event>, p: Packing) {
    forall g :: 0 <= g < |p.groups| && p.groups[g].encoded != [] && LastOfSubject(events, p.groups, g) ==>
      SubjectOf(events, p.groups[g]) in p.owner && p.owner[SubjectOf(events, p.groups[g])] == g
  }

  ghost predicate Packed(f: Framer, events: seq<Event>, p: Packing) {
    Greedy(f, events, p.groups) && LoneIsUnframeable(f, events, p.groups) && LastIsOpen(events, p)
  }

  /** The last group of the subject has no room for the element. */
  ghost predicate LastAreFull(f: Framer, events: seq<Event>, groups: seq<Group>, subject: string, next: seq<Byte>) {
    forall g :: 0 <= g < |groups| && groups[g].encoded != [] && LastOfSubject(events, groups, g) ==>
      SubjectOf(events, groups[g]) == subject ==> Full(f, groups[g], next)
  }

  lemma AppendedFollows(events: seq<Event>, groups: seq<Group>, group: Group, a: nat, b: nat)
    requires a < b <= |groups| && Follows(events, groups + [group], a, b)
    ensures b < |groups| ==> Follows(events, groups, a, b)
    ensures b == |groups| ==> LastOfSubject(events, groups, a)
  {
    hide SubjectOf;
    var all := groups + [group];
    assert all[a] == groups[a] && (b < |groups| ==> all[b] == groups[b]);
    forall k | a < k < b ensures SubjectOf(events, groups[k]) != SubjectOf(events, groups[a]) {
      assert all[k] == groups[k];
    }
  }

  lemma AppendedLast(events: seq<Event>, groups: seq<Group>, group: Group, g: nat)
    requires g < |groups| && LastOfSubject(events, groups + [group], g)
    ensures LastOfSubject(events, groups, g) && SubjectOf(events, group) != SubjectOf(events, groups[g])
  {
    hide SubjectOf;
    var all := groups + [group];
    assert all[|groups|] == group && all[g] == groups[g];
    forall k | g < k < |groups| ensures SubjectOf(events, groups[k]) != SubjectOf(events, groups[g]) {
      assert all[k] == groups[k];
    }
  }

  lemma AppendKeeps(f: Framer, events: seq<Event>, p: Packing, group: Group, owner: map<string, nat>, framed: bool)
    requires Packed(f, events, p)
    requires group.encoded == [] ==>
      |group.members| == 1 && group.members[0] < |events| && FrameElement(f, events[group.members[0]]).None?
    requires group.encoded != [] ==> LastAreFull(f, events, p.groups, SubjectOf(events, group), group.encoded[0])
    requires group.encoded != [] ==> SubjectOf(events, group) in owner && owner[SubjectOf(events, group)] == |p.groups|
    requires forall s :: s in p.owner && s != SubjectOf(events, group) ==> s in owner && owner[s] == p.owner[s]
    ensures Packed(f, events, Packing(p.groups + [group], owner, framed))
  {
    hide FrameElement, SubjectOf, Full, Follows, LastOfSubject;
    var groups := p.groups + [group];
    forall a, b | 0 <= a < b < |groups| && Follows(events, groups, a, b)
      ensures groups[b].encoded != [] && Full(f, groups[a], groups[b].encoded[0])
    {
      AppendedFollows(events, p.groups, group, a, b);
      FollowsOnSubject(events, groups, a, b);
    }
    forall g | 0 <= g < |groups| && groups[g].encoded != [] && LastOfSubject(events, groups, g)
      ensures SubjectOf(events, groups[g]) in owner && owner[SubjectOf(events, groups[g])] == g
    {
      if g < |p.groups| {
        AppendedLast(events, p.groups, group, g);
      }
    }
  }

  lemma FollowsOnSubject(events: seq<Event>, groups: seq<Group>, a: nat, b: nat)
    requires a < b < |groups| && Follows(events, groups, a, b)
    ensures groups[a].encoded != [] && groups[b].encoded != [] && SubjectOf(events, groups[a]) == SubjectOf(events, groups[b])
  {
  }

  lemma GrowKeeps(f: Framer, events: seq<Event>, p: Packing, g: nat, group: Group, framed: bool)
    requires Packed(f, events, p) && g < |p.groups| && LastOfSubject(events, p.groups, g)
    requires p.groups[g].encoded != [] && group.encoded != [] && group.encoded[0] == p.groups[g].encoded[0]
    requires SubjectOf(events, group) == SubjectOf(events, p.groups[g])
    ensures Packed(f, events, Packing(p.groups[g := group], p.owner, framed))
  {
    hide FrameElement, SubjectOf, Full;
    var groups := p.groups[g := group];
    forall k | 0 <= k < |groups| ensures SubjectOf(events, groups[k]) == SubjectOf(events, p.groups[k]) {
    }
    forall a, b | 0 <= a < b < |groups| && Follows(events, groups, a, b) ensures Full(f, groups[a], groups[b].encoded[0]) {
      assert Follows(events, p.groups, a, b);
      assert a != g;
    }
    forall h | 0 <= h < |groups| && groups[h].encoded != [] && LastOfSubject(events, groups, h)
      ensures SubjectOf(events, groups[h]) in p.owner && p.owner[SubjectOf(events, groups[h])] == h
    {
      assert LastOfSubject(events, p.groups, h);
    }
  }

  lemma PackOneIsGreedy(f: Framer, events: seq<Event>, i: nat, p: Packing)
    requires i < |events| && f.maxElements > 0 && WellPacked(f, events, i, p) && Packed(f, events, p)
    ensures Packed(f, events, PackOne(f, events[i], i, p))
  {
    hide FrameElement, Packed, Groups.Flat, OnSubject, GoodGroup, Fits, LastOfSubject;
    var encoded, s := FrameElement(f, events[i]), events[i].subject;
    if encoded.None? {
      AppendKeeps(f, events, p, Group([i], [], 0), p.owner - {s}, p.framed);
    } else if s in p.owner && Fits(f, p.groups[p.owner[s]], encoded.value) {
      var g := p.owner[s];
      var group := Grown(p.groups[g], i, encoded.value);
      OwnedIsLast(f, events, i, p, s);
      GrowKeeps(f, events, p, g, group, p.framed || |group.members| > 1);
    } else {
      var group := Grown(Group([], [], MAX_ARRAY_HEADER), i, encoded.value);
      assert group.members == [i] && group.encoded == [encoded.value];
      NoRoom(f, events, i, p, encoded.value);
      AppendKeeps(f, events, p, group, p.owner[s := |p.groups|], p.framed);
    }
  }

  lemma OwnedIsLast(f: Framer, events: seq<Event>, i: nat, p: Packing, s: string)
    requires i <= |events| && WellPacked(f, events, i, p) && s in p.owner
    ensures var g := p.owner[s];
      && p.groups[g].encoded != [] && p.groups[g].members != [] && p.groups[g].members[0] < |events|
      && SubjectOf(events, p.groups[g]) == s && LastOfSubject(events, p.groups, g)
  {
    hide FrameElement, Groups.Flat, OnSubject;
    assert GoodGroup(f, events, p.groups[p.owner[s]]);
  }

  lemma NoRoom(f: Framer, events: seq<Event>, i: nat, p: Packing, encoded: seq<Byte>)
    requires i < |events| && WellPacked(f, events, i, p) && Packed(f, events, p)
    requires var s := events[i].subject; s in p.owner ==> !Fits(f, p.groups[p.owner[s]], encoded)
    ensures LastAreFull(f, events, p.groups, events[i].subject, encoded)
  {
    hide FrameElement, Packed, Groups.Flat, OnSubject, LastOfSubject;
    forall g | 0 <= g < |p.groups| && p.groups[g].encoded != [] && LastOfSubject(events, p.groups, g)
      ensures SubjectOf(events, p.groups[g]) == events[i].subject ==> Full(f, p.groups[g], encoded)
    {
      OpenIsLast(f, events, p, g);
      assert GoodGroup(f, events, p.groups[g]);
    }
  }

  lemma OpenIsLast(f: Framer, events: seq<Event>, p: Packing, g: nat)
    requires Packed(f, events, p) && g < |p.groups| && p.groups[g].encoded != [] && LastOfSubject(events, p.groups, g)
    ensures SubjectOf(events, p.groups[g]) in p.owner && p.owner[SubjectOf(events, p.groups[g])] == g
  {
    hide Greedy, LoneIsUnframeable;
  }

  lemma {:induction false} PackIsGreedy(f: Framer, events: seq<Event>, n: nat)
    requires n <= |events| && f.maxElements > 0
    ensures Packed(f, events, Pack(f, events, n))
  {
    hide WellPacked, PackOne, Packed;
    if n == 0 {
      NonePacked(f, events);
    } else {
      PackIsGreedy(f, events, n - 1);
      PackKeeps(f, events, n - 1);
      PackOneIsGreedy(f, events, n - 1, Pack(f, events, n - 1));
    }
  }

  lemma NonePacked(f: Framer, events: seq<Event>)
    ensures Packed(f, events, Packing([], map[], false))
  {
  }

  /** A frame is closed for want of room only. Of two wire messages with encoded elements that follow each other on a
      subject the first has all the elements it may have, or the first element of the second would make it too long; and
      only an event that cannot be an element at all comes between, or stands alone for another reason. */
  lemma FramesAreFull(f: Framer, events: seq<Event>)
    requires ValidFramer(f)
    ensures var groups := Pack(f, events, |events|).groups;
      && (forall a, b :: 0 <= a < b < |groups| && Follows(events, groups, a, b) ==> Full(f, groups[a], groups[b].encoded[0]))
      && LoneIsUnframeable(f, events, groups)
  {
    PackIsGreedy(f, events, |events|);
  }

  lemma {:induction false} GetIsLookup(entries: seq<Entry>, headers: seq<EventHeader>, key: string)
    requires |entries| == |headers| && forall k :: 0 <= k < |headers| ==> entries[k] == Entry(headers[k].key, [headers[k].value])
    ensures Get(entries, key) == Lookup(headers, key)
  {
    if headers != [] {
      GetIsLookup(entries[1..], headers[1..], key);
    }
  }

  lemma FrameIdHeader(msgId: seq<string> -> string, ids: seq<string>)
    ensures Get(WireHeaders(msgId, ids), MSG_ID_HEADER) == msgId(ids)
  {
    var headers := WireHeaders(msgId, ids);
    assert |HEADER_VERSION| != |MSG_ID_HEADER| && |HEADER_COUNT| != |MSG_ID_HEADER|;
    assert headers[1..][1..] == [Entry(MSG_ID_HEADER, [msgId(ids)])];
    assert Get(headers, MSG_ID_HEADER) == Get(headers[1..], MSG_ID_HEADER) == Get(headers[1..][1..], MSG_ID_HEADER);
  }

  /** What the broker deduplicates a wire message by: an event that travels alone keeps its own headers, and a frame is
      named after the ids of its events, none of which is empty. */
  lemma WireIds(f: Framer, events: seq<Event>, k: nat, key: string)
    requires ValidFramer(f) && k < |Pack(f, events, |events|).groups|
    ensures var group := Pack(f, events, |events|).groups[k];
      && group.members != [] && (forall m :: 0 <= m < |group.members| ==> group.members[m] < |events|)
      && var wire, first := WireOf(f, events, group), events[group.members[0]];
      && wire.subject == first.subject
      && (|group.members| == 1 ==> wire.data == first.payload && Get(wire.headers, key) == Lookup(first.headers, key))
      && (|group.members| > 1 ==>
            exists ids :: |ids| == |group.members| && Get(wire.headers, MSG_ID_HEADER) == f.msgId(ids)
              && forall m :: 0 <= m < |ids| ==> ids[m] != "" && ids[m] == Lookup(events[group.members[m]].headers, MSG_ID_HEADER))
  {
    hide Pack, Get, GoodGroup, WireHeaders;
    PackKeeps(f, events, |events|);
    var group := Pack(f, events, |events|).groups[k];
    GoodIndexes(f, events, group);
    if |group.members| == 1 {
      var first := events[group.members[0]];
      GetIsLookup(ElementOf(first).headers, first.headers, key);
    } else {
      var ids := Ids(events, group.members);
      FrameIdHeader(f.msgId, ids);
      FramesAreWithinLimits(f, events, k);
      assert forall m :: 0 <= m < |ids| ==> ids[m] == Lookup(events[group.members[m]].headers, MSG_ID_HEADER) && ids[m] != "";
    }
  }

  /** A frame that is packed again, of other rows and in another order, has the same id if its events have the same ids,
      so the broker takes it for the same message; and a frame of other events has another one. */
  lemma RepackedFrameIsKnown(f: Framer, hash: string -> string, ids: seq<string>, others: seq<string>)
    requires forall names: seq<string> :: f.msgId(names) == FrameIds.MsgId(hash, names)
    requires FrameIds.Lines(ids) && FrameIds.Lines(others) && forall s: string, t: string :: hash(s) == hash(t) ==> s == t
    ensures Get(WireHeaders(f.msgId, ids), MSG_ID_HEADER) == Get(WireHeaders(f.msgId, others), MSG_ID_HEADER)
      <==> multiset(ids) == multiset(others)
  {
    hide Get, WireHeaders;
    FrameIdHeader(f.msgId, ids);
    FrameIdHeader(f.msgId, others);
    FrameIds.SameIdIff(hash, ids, others);
  }

  /** One letter in either case, or the same character. */
  ghost predicate SameLetter(c: char, d: char) {
    c == d || ('A' <= c <= 'Z' && d as int == c as int + 32) || ('A' <= d <= 'Z' && c as int == d as int + 32)
  }

  /** Headers that the server acts on are recognised in every spelling. */
  lemma CaseDoesNotMatter(a: string, b: string)
    requires |a| == |b| && forall k :: 0 <= k < |a| ==> SameLetter(a[k], b[k])
    ensures KeepsFrameOut(a) == KeepsFrameOut(b)
  {
    assert Lower(a) == Lower(b);
  }

  lemma ServerHeadersKeepOut(name: string)
    ensures KeepsFrameOut("Nats-TTL") && KeepsFrameOut("Nats-Rollup") && KeepsFrameOut("Nats-Expected-" + name)
    ensures !KeepsFrameOut(MSG_ID_HEADER) && !KeepsFrameOut("traceparent")
  {
    assert Lower("Nats-TTL") == "nats-ttl" && Lower("Nats-Rollup") == "nats-rollup";
    var prefix := "Nats-Expected-";
    assert Lower(prefix) == "nats-expected-";
    assert Lower(prefix + name)[..|prefix|] == Lower(prefix);
    assert Lower(MSG_ID_HEADER) == "nats-msg-id";
    assert Lower("traceparent") == "traceparent";
    assert |"nats-msg-id"| < |"nats-expected-"| && |"traceparent"| < |"nats-expected-"|;
  }

  /** Every group is one event, in row order. */
  ghost predicate OneEach(p: Packing, n: nat) {
    |p.groups| == n && forall k :: 0 <= k < n ==> p.groups[k].members == [k]
  }

  lemma {:induction false} UnframedIsOneEach(f: Framer, events: seq<Event>, n: nat)
    requires n <= |events| && !Pack(f, events, n).framed && ValidFramer(f)
    ensures OneEach(Pack(f, events, n), n)
  {
    if n > 0 {
      hide Pack, OneEach, FrameElement, WellPacked;
      PackStep(f, events, n - 1);
      UnframedIsOneEach(f, events, n - 1);
      PackKeeps(f, events, n - 1);
      AloneIsOneMore(f, events, n - 1, Pack(f, events, n - 1));
    } else {
      assert Pack(f, events, 0).groups == [];
    }
  }

  lemma PackStep(f: Framer, events: seq<Event>, n: nat)
    requires n < |events| && !Pack(f, events, n + 1).framed
    ensures Pack(f, events, n + 1) == PackOne(f, events[n], n, Pack(f, events, n)) && !Pack(f, events, n).framed
  {
    hide FrameElement;
  }

  lemma AloneIsOneMore(f: Framer, events: seq<Event>, i: nat, p: Packing)
    requires i < |events| && WellPacked(f, events, i, p) && OneEach(p, i) && !PackOne(f, events[i], i, p).framed
    ensures OneEach(PackOne(f, events[i], i, p), i + 1)
  {
    hide FrameElement, Groups.Flat, OnSubject, GoodGroup;
    assert forall s :: s in p.owner ==> p.groups[p.owner[s]].members == [p.owner[s]];
  }

  /** What is published is what was packed: wire message k is that of group k, whether there is a frame or not, and the
      events of the group are those that travel in it. */
  lemma PublishesTheGroups(f: Framer, events: seq<Event>, k: nat)
    requires ValidFramer(f)
    ensures var groups := Pack(f, events, |events|).groups;
      && |WireMessages(f, events)| == |groups|
      && (k < |groups| ==>
            && Indexed(events, groups) && WireMessages(f, events)[k] == WireOf(f, events, groups[k])
            && forall i: nat :: TravelsIn(f, events, k, i) <==> i in groups[k].members)
  {
    hide Pack, FrameElement, WellPacked;
    var p := Pack(f, events, |events|);
    PackKeeps(f, events, |events|);
    PackedIndexes(f, events);
    FramedOnlyIfActive(f, events);
    if FramingOf(f, events).Unframed? {
      UnframedIsOneEach(f, events, |events|);
    } else if k < |p.groups| {
      forall i: nat ensures TravelsIn(f, events, k, i) <==> i in p.groups[k].members {
        assert Members(p.groups)[k] == p.groups[k].members;
      }
    }
  }

  /** Without patterns, and for a single event, there is no frame. */
  lemma FramedOnlyIfActive(f: Framer, events: seq<Event>)
    requires ValidFramer(f)
    ensures Pack(f, events, |events|).framed ==> f.patterns != [] && |events| >= 2
  {
    if |events| == 1 {
      assert Pack(f, events, 0) == Packing([], map[], false);
    } else if f.patterns == [] {
      NothingFramed(f, events, |events|);
    }
  }

  lemma {:induction false} NothingFramed(f: Framer, events: seq<Event>, n: nat)
    requires n <= |events| && f.patterns == []
    ensures !Pack(f, events, n).framed
  {
    if n > 0 {
      NothingFramed(f, events, n - 1);
      assert !Frameable(f, events[n - 1]);
    }
  }
}
