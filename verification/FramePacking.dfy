/** The relay's greedy packer: rows of one subject share frames, in row order. */
module FramePacking {
  import opened BatchTypes
  import opened Groups
  import opened MsgPack
  import opened Frames
  import opened Subjects

  /** A row as the producer gets it; the header map comes as its entries in iteration order. */
  datatype EventHeader = EventHeader(key: string, value: string)
  datatype Event = Event(subject: string, headers: seq<EventHeader>, payload: seq<Byte>)

  /** What the relay frames with. msgId is the hash that names a frame. */
  datatype Framer = Framer(patterns: seq<string>, latestOnly: seq<string>, maxElements: nat, maxBytes: nat,
                           codec: Codec, msgId: seq<string> -> string)

  /** The limits that the resolved configuration guarantees. */
  predicate ValidFramer(f: Framer) {
    2 <= f.maxElements <= 1024 && f.maxBytes >= 1024
  }

  const KV_PREFIX := "$KV."

  function Lower(s: string): string {
    seq(|s|, k requires 0 <= k < |s| => if 'A' <= s[k] <= 'Z' then (s[k] as int + 32) as char else s[k])
  }

  /** Headers that the server acts on when the message is stored. */
  predicate KeepsFrameOut(header: string) {
    var lower := Lower(header);
    HasPrefix(lower, "nats-expected-") || lower == "nats-ttl" || lower == "nats-rollup"
  }

  function Lookup(headers: seq<EventHeader>, key: string): string {
    if headers == [] then "" else if headers[0].key == key then headers[0].value else Lookup(headers[1..], key)
  }

  function EventId(event: Event): string {
    Lookup(event.headers, MSG_ID_HEADER)
  }

  predicate Frameable(f: Framer, event: Event) {
    && (exists k :: 0 <= k < |f.patterns| && Matches(f.patterns[k], event.subject))
    && !HasPrefix(event.subject, KV_PREFIX)
    && EventId(event) != ""
    && (forall k :: 0 <= k < |f.latestOnly| ==> !HasPrefix(event.subject, f.latestOnly[k]))
    && (forall k :: 0 <= k < |event.headers| ==> !KeepsFrameOut(event.headers[k].key))
  }

  function ElementOf(event: Event): Element {
    Element(event.subject,
            seq(|event.headers|, k requires 0 <= k < |event.headers| => Entry(event.headers[k].key, [event.headers[k].value])),
            event.payload)
  }

  /** The encoded element of an event that may go into a frame. */
  function FrameElement(f: Framer, event: Event): Option<seq<Byte>> {
    if !Frameable(f, event) then None
    else
      var encoded := f.codec.encode(ElementOf(event));
      if encoded.Some? && |encoded.value| + MAX_ARRAY_HEADER > f.maxBytes then None else encoded
  }

  /** A wire message in the making: its events, and their encodings when it may become a frame. */
  datatype Group = Group(members: seq<nat>, encoded: seq<seq<Byte>>, size: nat)

  /** owner is the group of each subject that may still grow. */
  datatype Packing = Packing(groups: seq<Group>, owner: map<string, nat>, framed: bool)

  predicate Bounded(p: Packing) {
    forall s :: s in p.owner ==> p.owner[s] < |p.groups|
  }

  /** A group takes an encoding if it stays within both limits. */
  predicate Fits(f: Framer, group: Group, encoded: seq<Byte>) {
    |group.members| < f.maxElements && group.size + |encoded| <= f.maxBytes
  }

  function Grown(group: Group, i: nat, encoded: seq<Byte>): Group {
    Group(group.members + [i], group.encoded + [encoded], group.size + |encoded|)
  }

  function PackOne(f: Framer, event: Event, i: nat, p: Packing): (r: Packing)
    requires Bounded(p)
    ensures Bounded(r)
  {
    var encoded := FrameElement(f, event);
    var s := event.subject;
    if encoded.None? then Packing(p.groups + [Group([i], [], 0)], p.owner - {s}, p.framed)
    else if s in p.owner && Fits(f, p.groups[p.owner[s]], encoded.value) then
      var group := Grown(p.groups[p.owner[s]], i, encoded.value);
      Packing(p.groups[p.owner[s] := group], p.owner, p.framed || |group.members| > 1)
    else
      Packing(p.groups + [Grown(Group([], [], MAX_ARRAY_HEADER), i, encoded.value)], p.owner[s := |p.groups|], p.framed)
  }

  function Pack(f: Framer, events: seq<Event>, n: nat): (p: Packing)
    requires n <= |events|
    ensures Bounded(p)
  {
    if n == 0 then Packing([], map[], false) else PackOne(f, events[n - 1], n - 1, Pack(f, events, n - 1))
  }

  function Members(groups: seq<Group>): (members: seq<seq<nat>>)
    ensures |members| == |groups| && forall k :: 0 <= k < |groups| ==> members[k] == groups[k].members
  {
    seq(|groups|, k requires 0 <= k < |groups| => groups[k].members)
  }

  /** The events of idxs on a subject, in the order of idxs. */
  function OnSubject(events: seq<Event>, idxs: seq<nat>, subject: string): seq<nat> {
    if idxs == [] then []
    else
      var init := OnSubject(events, idxs[..|idxs| - 1], subject);
      var last := idxs[|idxs| - 1];
      if last < |events| && events[last].subject == subject then init + [last] else init
  }

  /** The first n events on a subject, in row order. */
  function RowsOn(events: seq<Event>, n: nat, subject: string): seq<nat>
    requires n <= |events|
  {
    if n == 0 then []
    else if events[n - 1].subject == subject then RowsOn(events, n - 1, subject) + [n - 1]
    else RowsOn(events, n - 1, subject)
  }

  function Total(encoded: seq<seq<Byte>>): nat {
    |Concat(encoded)|
  }

  /** A group that can stay alone or become a frame. */
  ghost predicate GoodGroup(f: Framer, events: seq<Event>, group: Group) {
    && group.members != [] && group.members[0] < |events|
    && (forall k :: 0 <= k < |group.members| ==>
          group.members[k] < |events| && events[group.members[k]].subject == events[group.members[0]].subject)
    && (group.encoded == [] ==> |group.members| == 1)
    && (group.encoded != [] ==>
          && |group.encoded| == |group.members| <= f.maxElements
          && (forall k :: 0 <= k < |group.members| ==> FrameElement(f, events[group.members[k]]) == Some(group.encoded[k]))
          && group.size == MAX_ARRAY_HEADER + Total(group.encoded) <= f.maxBytes)
  }

  /** The subject of the first event of a group. */
  function SubjectOf(events: seq<Event>, group: Group): string {
    if group.members != [] && group.members[0] < |events| then events[group.members[0]].subject else ""
  }

  /** What packing keeps: good groups, open groups that are the last of their subject, row order by subject. */
  ghost predicate WellPacked(f: Framer, events: seq<Event>, n: nat, p: Packing)
    requires n <= |events|
  {
    && Bounded(p)
    && (forall k :: 0 <= k < |p.groups| ==> GoodGroup(f, events, p.groups[k]))
    && (forall s :: s in p.owner ==>
          && p.groups[p.owner[s]].encoded != []
          && SubjectOf(events, p.groups[p.owner[s]]) == s
          && forall k :: p.owner[s] < k < |p.groups| ==> SubjectOf(events, p.groups[k]) != s)
    && (forall s :: OnSubject(events, Flat(Members(p.groups)), s) == RowsOn(events, n, s))
    && (p.framed <==> exists k :: 0 <= k < |p.groups| && |p.groups[k].members| > 1)
  }

  lemma {:induction false} OnSubjectConcat(events: seq<Event>, a: seq<nat>, b: seq<nat>, s: string)
    ensures OnSubject(events, a + b, s) == OnSubject(events, a, s) + OnSubject(events, b, s)
  {
    if b == [] {
      assert a + b == a;
    } else {
      var init := b[..|b| - 1];
      OnSubjectConcat(events, a, init, s);
      assert (a + b)[..|a + b| - 1] == a + init;
    }
  }

  lemma {:induction false} OnOtherSubject(events: seq<Event>, groups: seq<Group>, s: string)
    requires forall k :: 0 <= k < |groups| ==> groups[k].members != [] && forall m :: 0 <= m < |groups[k].members| ==>
      groups[k].members[m] < |events| && events[groups[k].members[m]].subject != s
    ensures OnSubject(events, Flat(Members(groups)), s) == []
  {
    if groups != [] {
      OnOtherSubject(events, groups[1..], s);
      assert Members(groups)[1..] == Members(groups[1..]);
      NoneOn(events, groups[0].members, s);
      OnSubjectConcat(events, groups[0].members, Flat(Members(groups[1..])), s);
    }
  }

  lemma {:induction false} NoneOn(events: seq<Event>, idxs: seq<nat>, s: string)
    requires forall m :: 0 <= m < |idxs| ==> idxs[m] < |events| && events[idxs[m]].subject != s
    ensures OnSubject(events, idxs, s) == []
  {
    if idxs != [] {
      NoneOn(events, idxs[..|idxs| - 1], s);
    }
  }

  lemma AppendedGroup(events: seq<Event>, groups: seq<Group>, group: Group, i: nat, s: string)
    requires group.members == [i] && i < |events|
    ensures OnSubject(events, Flat(Members(groups + [group])), s) ==
      OnSubject(events, Flat(Members(groups)), s) + (if events[i].subject == s then [i] else [])
  {
    assert Members(groups + [group]) == Members(groups) + [[i]];
    FlatConcat(Members(groups), [[i]]);
    assert Flat([[i]]) == [i] + Flat([[i]][1..]) == [i];
    OnSubjectConcat(events, Flat(Members(groups)), [i], s);
    assert [i][..0] == [];
  }

  lemma GrownGroup(events: seq<Event>, groups: seq<Group>, g: nat, group: Group, i: nat, s: string)
    requires g < |groups| && i < |events| && group.members == groups[g].members + [i]
    requires forall k :: g < k < |groups| ==> groups[k].members != [] && forall m :: 0 <= m < |groups[k].members| ==>
      groups[k].members[m] < |events| && events[groups[k].members[m]].subject != events[i].subject
    ensures OnSubject(events, Flat(Members(groups[g := group])), s) ==
      OnSubject(events, Flat(Members(groups)), s) + (if events[i].subject == s then [i] else [])
  {
    var before, after := groups[..g], groups[g + 1..];
    var a, b, c := Flat(Members(before)), groups[g].members, Flat(Members(after));
    assert Members(groups) == Members(before) + ([b] + Members(after));
    assert Members(groups[g := group]) == Members(before) + ([b + [i]] + Members(after));
    FlatConcat(Members(before), [b] + Members(after));
    FlatConcat(Members(before), [b + [i]] + Members(after));
    assert ([b] + Members(after))[1..] == Members(after) && ([b + [i]] + Members(after))[1..] == Members(after);
    assert Flat(Members(groups)) == a + (b + c);
    assert Flat(Members(groups[g := group])) == a + ((b + [i]) + c);
    OnSubjectConcat(events, a, b + c, s);
    OnSubjectConcat(events, b, c, s);
    OnSubjectConcat(events, a, (b + [i]) + c, s);
    OnSubjectConcat(events, b + [i], c, s);
    OnSubjectConcat(events, b, [i], s);
    assert [i][..0] == [];
    if events[i].subject == s {
      OnOtherSubject(events, after, s);
    }
  }

  lemma LoneGroup(f: Framer, events: seq<Event>, i: nat, encoded: seq<Byte>)
    requires i < |events| && f.maxElements > 0
    ensures GoodGroup(f, events, Group([i], [], 0))
    ensures FrameElement(f, events[i]) == Some(encoded) ==>
      GoodGroup(f, events, Grown(Group([], [], MAX_ARRAY_HEADER), i, encoded))
  {
    assert [] + [encoded] == [encoded] && [] + [i] == [i];
    assert Concat([encoded]) == encoded + Concat([encoded][1..]) == encoded;
  }

  lemma GrownIsGood(f: Framer, events: seq<Event>, group: Group, i: nat, encoded: seq<Byte>)
    requires GoodGroup(f, events, group) && group.encoded != [] && i < |events|
    requires events[i].subject == SubjectOf(events, group)
    requires FrameElement(f, events[i]) == Some(encoded) && Fits(f, group, encoded)
    ensures GoodGroup(f, events, Grown(group, i, encoded))
  {
    ConcatSnoc(group.encoded, encoded);
  }

  /** An event that joins the open group of its subject. */
  lemma JoinKeeps(f: Framer, events: seq<Event>, i: nat, p: Packing)
    requires i < |events| && f.maxElements > 0 && WellPacked(f, events, i, p)
    requires var encoded, s := FrameElement(f, events[i]), events[i].subject;
      encoded.Some? && s in p.owner && Fits(f, p.groups[p.owner[s]], encoded.value)
    ensures WellPacked(f, events, i + 1, PackOne(f, events[i], i, p))
  {
    hide FrameElement, Fits, GoodGroup, OnSubject, Flat;
    var r := PackOne(f, events[i], i, p);
    var encoded := FrameElement(f, events[i]).value;
    GoodMembers(f, events, p.groups);
    var g := p.owner[events[i].subject];
    var group := Grown(p.groups[g], i, encoded);
    GrownIsGood(f, events, p.groups[g], i, encoded);
    forall t ensures OnSubject(events, Flat(Members(r.groups)), t) == RowsOn(events, i + 1, t) {
      GrownGroup(events, p.groups, g, group, i, t);
    }
    assert |r.groups[g].members| > 1;
    assert SubjectOf(events, group) == SubjectOf(events, p.groups[g]);
  }

  /** An event that opens a wire message of its own. */
  lemma OpenKeeps(f: Framer, events: seq<Event>, i: nat, p: Packing)
    requires i < |events| && f.maxElements > 0 && WellPacked(f, events, i, p)
    requires var encoded, s := FrameElement(f, events[i]), events[i].subject;
      !(encoded.Some? && s in p.owner && Fits(f, p.groups[p.owner[s]], encoded.value))
    ensures WellPacked(f, events, i + 1, PackOne(f, events[i], i, p))
  {
    hide FrameElement, Fits, GoodGroup, OnSubject, Flat;
    var encoded := FrameElement(f, events[i]);
    var r := PackOne(f, events[i], i, p);
    var group := r.groups[|p.groups|];
    assert r.groups == p.groups + [group] && group.members == [i];
    LoneGroup(f, events, i, if encoded.Some? then encoded.value else []);
    forall t ensures OnSubject(events, Flat(Members(r.groups)), t) == RowsOn(events, i + 1, t) {
      AppendedGroup(events, p.groups, group, i, t);
    }
    assert SubjectOf(events, group) == events[i].subject;
    forall k | 0 <= k < |p.groups| ensures r.groups[k] == p.groups[k] {
    }
    if p.framed {
      var k :| 0 <= k < |p.groups| && |p.groups[k].members| > 1;
      assert |r.groups[k].members| > 1;
    }
  }

  lemma PackOneKeeps(f: Framer, events: seq<Event>, i: nat, p: Packing)
    requires i < |events| && f.maxElements > 0 && WellPacked(f, events, i, p)
    ensures WellPacked(f, events, i + 1, PackOne(f, events[i], i, p))
  {
    hide PackOne, FrameElement, Fits;
    assert forall s :: s in p.owner ==> p.owner[s] < |p.groups|;
    var encoded, s := FrameElement(f, events[i]), events[i].subject;
    if encoded.Some? && s in p.owner && Fits(f, p.groups[p.owner[s]], encoded.value) {
      JoinKeeps(f, events, i, p);
    } else {
      OpenKeeps(f, events, i, p);
    }
  }

  lemma GoodMembers(f: Framer, events: seq<Event>, groups: seq<Group>)
    requires forall k :: 0 <= k < |groups| ==> GoodGroup(f, events, groups[k])
    ensures forall k :: 0 <= k < |groups| ==> groups[k].members != [] && forall m :: 0 <= m < |groups[k].members| ==>
      groups[k].members[m] < |events| && events[groups[k].members[m]].subject == SubjectOf(events, groups[k])
  {
  }

  lemma {:induction false} PackKeeps(f: Framer, events: seq<Event>, n: nat)
    requires n <= |events| && f.maxElements > 0
    ensures WellPacked(f, events, n, Pack(f, events, n))
  {
    if n == 0 {
      assert Members([]) == [] && Flat([]) == [];
    } else {
      hide WellPacked, PackOne;
      PackKeeps(f, events, n - 1);
      PackOneKeeps(f, events, n - 1, Pack(f, events, n - 1));
    }
  }

  lemma {:induction false} RowsAscend(events: seq<Event>, n: nat, s: string)
    requires n <= |events|
    ensures Ascending(RowsOn(events, n, s))
    ensures forall i :: i in RowsOn(events, n, s) <==> 0 <= i < n && events[i].subject == s
  {
    if n > 0 {
      RowsAscend(events, n - 1, s);
      var rows := RowsOn(events, n - 1, s);
      assert forall k :: 0 <= k < |rows| ==> rows[k] in rows;
    }
  }

  lemma {:induction false} OnSubjectCounts(events: seq<Event>, idxs: seq<nat>, i: nat)
    requires i < |events|
    ensures multiset(OnSubject(events, idxs, events[i].subject))[i] == multiset(idxs)[i]
  {
    if idxs != [] {
      var init, last := idxs[..|idxs| - 1], idxs[|idxs| - 1];
      assert idxs == init + [last];
      OnSubjectCounts(events, init, i);
    }
  }

  lemma {:induction false} AscendingCounts(idxs: seq<nat>, i: nat)
    requires Ascending(idxs)
    ensures multiset(idxs)[i] == if i in idxs then 1 else 0
  {
    if idxs != [] {
      var init, last := idxs[..|idxs| - 1], idxs[|idxs| - 1];
      assert idxs == init + [last];
      AscendingCounts(init, i);
    }
  }

  /** Packing is an order-preserving partition: every event is in exactly one wire message, once, and the
      wire messages give the events of every subject in row order. */
  lemma PackingIsOrderedPartition(f: Framer, events: seq<Event>, i: nat, s: string)
    requires i < |events| && ValidFramer(f)
    ensures var members := Members(Pack(f, events, |events|).groups);
      && multiset(Flat(members))[i] == 1
      && OnSubject(events, Flat(members), s) == RowsOn(events, |events|, s)
  {
    PackKeeps(f, events, |events|);
    var flat := Flat(Members(Pack(f, events, |events|).groups));
    var own := events[i].subject;
    RowsAscend(events, |events|, own);
    AscendingCounts(RowsOn(events, |events|, own), i);
    OnSubjectCounts(events, flat, i);
  }

  /** Frames hold only frameable events of one subject, within both limits. */
  lemma FramesAreWithinLimits(f: Framer, events: seq<Event>, k: nat)
    requires ValidFramer(f) && k < |Pack(f, events, |events|).groups|
    ensures var group := Pack(f, events, |events|).groups[k];
      |group.members| > 1 ==>
        && |group.members| <= f.maxElements && |Joined(group.encoded)| <= f.maxBytes
        && forall m :: 0 <= m < |group.members| ==>
             && group.members[m] < |events| && Frameable(f, events[group.members[m]])
             && events[group.members[m]].subject == SubjectOf(events, group)
  {
    PackKeeps(f, events, |events|);
    var group := Pack(f, events, |events|).groups[k];
    assert GoodGroup(f, events, group);
    if |group.members| > 1 {
      ArrayHeaderReads(|group.encoded|, []);
    }
  }

  function Ids(events: seq<Event>, members: seq<nat>): (ids: seq<string>)
    requires forall k :: 0 <= k < |members| ==> members[k] < |events|
    ensures |ids| == |members|
  {
    seq(|members|, k requires 0 <= k < |members| => EventId(events[members[k]]))
  }

  /** The message a group is published as. */
  function WireOf(f: Framer, events: seq<Event>, group: Group): Message
    requires group.members != [] && forall k :: 0 <= k < |group.members| ==> group.members[k] < |events|
  {
    if |group.members| == 1 then
      var e := ElementOf(events[group.members[0]]);
      Message(e.subject, e.headers, e.payload)
    else
      Message(SubjectOf(events, group), WireHeaders(f.msgId, Ids(events, group.members)), Joined(group.encoded))
  }

  function EventElements(events: seq<Event>, members: seq<nat>): (elements: seq<Element>)
    requires forall k :: 0 <= k < |members| ==> members[k] < |events|
    ensures |elements| == |members|
  {
    seq(|members|, k requires 0 <= k < |members| => ElementOf(events[members[k]]))
  }

  lemma GroupEncodes(f: Framer, events: seq<Event>, group: Group)
    requires GoodGroup(f, events, group) && |group.members| > 1
    ensures EncodedAs(f.codec, EventElements(events, group.members), group.encoded)
    ensures forall k :: 0 <= k < |group.members| ==>
      EventElements(events, group.members)[k].subject == SubjectOf(events, group)
  {
    forall k | 0 <= k < |group.members| ensures f.codec.encode(ElementOf(events[group.members[k]])) == Some(group.encoded[k]) {
      assert FrameElement(f, events[group.members[k]]) == Some(group.encoded[k]);
    }
  }

  /** Round trip: unpacking a frame of the relay gives its member events in row order, each with its
      subject, its payload and its headers, and index headers from 0. */
  lemma RelayFrameRoundTrip(f: Framer, events: seq<Event>, k: nat)
    requires ValidFramer(f) && k < |Pack(f, events, |events|).groups| && SelfDelimiting(f.codec)
    ensures var group := Pack(f, events, |events|).groups[k];
      && group.members != [] && (forall m :: 0 <= m < |group.members| ==> group.members[m] < |events|)
      && (|group.members| > 1 ==>
            var elements := EventElements(events, group.members);
            Unpack(f.codec, WireOf(f, events, group)) ==
            Elements(seq(|elements|, m requires 0 <= m < |elements| => ElementMessage(elements[m], m))))
  {
    hide Pack, Unpack, GoodGroup;
    PackKeeps(f, events, |events|);
    var group := Pack(f, events, |events|).groups[k];
    GoodIndexes(f, events, group);
    if |group.members| > 1 {
      GroupRoundTrip(f, events, group);
    }
  }

  lemma GoodIndexes(f: Framer, events: seq<Event>, group: Group)
    requires GoodGroup(f, events, group)
    ensures group.members != [] && forall m :: 0 <= m < |group.members| ==> group.members[m] < |events|
    ensures |group.members| > 1 ==> |group.members| <= f.maxElements
  {
  }

  lemma GroupRoundTrip(f: Framer, events: seq<Event>, group: Group)
    requires GoodGroup(f, events, group) && 1 < |group.members| < WIDE && SelfDelimiting(f.codec)
    ensures var elements := EventElements(events, group.members);
      Unpack(f.codec, WireOf(f, events, group)) ==
      Elements(seq(|elements|, m requires 0 <= m < |elements| => ElementMessage(elements[m], m)))
  {
    hide Unpack, SelfDelimiting, EncodedAs, FrameElement, SubjectOf, EventElements, Ids;
    GroupEncodes(f, events, group);
    FrameRoundTrip(f.codec, f.msgId, Ids(events, group.members), SubjectOf(events, group),
                   EventElements(events, group.members), group.encoded);
  }

  /** What the relay publishes: the wire messages and the events behind each, or every event on its own. */
  datatype Framing = Unframed | Framed(wire: seq<Message>, members: seq<seq<nat>>)

  ghost function FramingOf(f: Framer, events: seq<Event>): Framing
    requires ValidFramer(f)
  {
    var p := Pack(f, events, |events|);
    if f.patterns == [] || |events| < 2 || !p.framed then Unframed
    else
      PackedIndexes(f, events);
      Framed(Wires(f, events, p.groups), Members(p.groups))
  }

  ghost predicate Indexed(events: seq<Event>, groups: seq<Group>) {
    forall k :: 0 <= k < |groups| ==>
      groups[k].members != [] && forall m :: 0 <= m < |groups[k].members| ==> groups[k].members[m] < |events|
  }

  ghost function Wires(f: Framer, events: seq<Event>, groups: seq<Group>): (wire: seq<Message>)
    requires Indexed(events, groups)
    ensures |wire| == |groups|
  {
    seq(|groups|, k requires 0 <= k < |groups| => WireOf(f, events, groups[k]))
  }

  lemma PackedIndexes(f: Framer, events: seq<Event>)
    requires ValidFramer(f)
    ensures Indexed(events, Pack(f, events, |events|).groups)
  {
    PackKeeps(f, events, |events|);
    var groups := Pack(f, events, |events|).groups;
    forall k | 0 <= k < |groups| ensures
      groups[k].members != [] && forall m :: 0 <= m < |groups[k].members| ==> groups[k].members[m] < |events|
    {
      assert GoodGroup(f, events, groups[k]);
    }
  }

  lemma InTwoGroups(members: seq<seq<nat>>, a: nat, b: nat, i: nat)
    requires a < |members| && b < |members| && i in members[a] && i in members[b]
    ensures a < b ==> multiset(Flat(members))[i] >= 2
  {
    if a < b {
      var before: seq<seq<nat>>, after: seq<seq<nat>> := members[..b], members[b..];
      assert members == before + after;
      FlatConcat(before, after);
      FlatMember(before, i);
      FlatMember(after, i);
      assert i in before[a] && i in after[0];
      assert i in Flat(before) && i in Flat(after);
    }
  }

  ghost predicate Behind(members: seq<seq<nat>>, k: int, i: nat) {
    0 <= k < |members| && i in members[k]
  }

  /** Every event is behind exactly one wire message. */
  lemma BehindOneMessage(f: Framer, events: seq<Event>, i: nat)
    requires ValidFramer(f) && i < |events|
    ensures var members := Members(Pack(f, events, |events|).groups);
      && (exists k :: Behind(members, k, i))
      && (forall a, b :: Behind(members, a, i) && Behind(members, b, i) ==> a == b)
  {
    hide Pack;
    PackingIsOrderedPartition(f, events, i, "");
    var members := Members(Pack(f, events, |events|).groups);
    assert i in multiset(Flat(members));
    FlatMember(members, i);
    var k :| 0 <= k < |members| && i in members[k];
    assert Behind(members, k, i);
    forall a, b | Behind(members, a, i) && Behind(members, b, i) ensures a == b {
      InTwoGroups(members, a, b, i);
      InTwoGroups(members, b, a, i);
    }
  }

  method IsFrameable(f: Framer, event: Event) returns (frameable: bool)
    ensures frameable == Frameable(f, event)
  {
    var listed := MatchesAnyPattern(event.subject, f.patterns);
    if !listed || HasPrefix(event.subject, KV_PREFIX) || EventId(event) == "" {
      return false;
    }
    var n := 0;
    while n < |f.latestOnly|
      invariant 0 <= n <= |f.latestOnly|
      invariant forall k :: 0 <= k < n ==> !HasPrefix(event.subject, f.latestOnly[k])
    {
      if HasPrefix(event.subject, f.latestOnly[n]) {
        return false;
      }
      n := n + 1;
    }
    n := 0;
    while n < |event.headers|
      invariant 0 <= n <= |event.headers|
      invariant forall k :: 0 <= k < n ==> !KeepsFrameOut(event.headers[k].key)
    {
      if KeepsFrameOut(event.headers[n].key) {
        return false;
      }
      n := n + 1;
    }
    return true;
  }

  method EncodeElement(f: Framer, event: Event) returns (encoded: Option<seq<Byte>>)
    ensures encoded == FrameElement(f, event)
  {
    var frameable := IsFrameable(f, event);
    if !frameable {
      return None;
    }
    encoded := f.codec.encode(ElementOf(event));
    if encoded.Some? && |encoded.value| + MAX_ARRAY_HEADER > f.maxBytes {
      return None;
    }
  }

  /** A wire message in the making, grown in place. */
  class WireFrame {
    var members: seq<nat>
    var encoded: seq<seq<Byte>>
    var size: nat

    constructor (members: seq<nat>, size: nat)
      ensures Contents() == Group(members, [], size)
    {
      this.members, this.encoded, this.size := members, [], size;
    }

    function Contents(): Group
      reads this
    {
      Group(members, encoded, size)
    }

    method Add(i: nat, element: seq<Byte>)
      modifies this
      ensures Contents() == Grown(old(Contents()), i, element)
    {
      members, encoded, size := members + [i], encoded + [element], size + |element|;
    }
  }

  ghost function AllContents(frames: seq<WireFrame>): (groups: seq<Group>)
    reads frames
    ensures |groups| == |frames|
  {
    seq(|frames|, k requires 0 <= k < |frames| reads frames => frames[k].Contents())
  }

  ghost predicate Distinct(frames: seq<WireFrame>) {
    forall a, b :: 0 <= a < b < |frames| ==> frames[a] != frames[b]
  }

  ghost predicate Owners(frames: seq<WireFrame>, owners: map<string, WireFrame>, owner: map<string, nat>) {
    && owners.Keys == owner.Keys
    && forall s :: s in owners ==> owner[s] < |frames| && owners[s] == frames[owner[s]]
  }

  /** frames are the groups of p, and owners are its open groups. */
  ghost predicate Holds(frames: seq<WireFrame>, owners: map<string, WireFrame>, p: Packing)
    reads frames
  {
    Bounded(p) && AllContents(frames) == p.groups && Distinct(frames) && Owners(frames, owners, p.owner)
  }

  method FrameEvents(f: Framer, events: seq<Event>) returns (framing: Framing)
    requires ValidFramer(f)
    ensures framing == FramingOf(f, events)
  {
    hide FrameElement, PackOne, Holds;
    NothingHeld();
    if f.patterns == [] || |events| < 2 {
      return Unframed;
    }
    var frames: seq<WireFrame> := [];
    var owners: map<string, WireFrame> := map[];
    var framed := false;
    var i := 0;
    while i < |events|
      invariant 0 <= i <= |events|
      invariant forall k :: 0 <= k < |frames| ==> fresh(frames[k])
      invariant Holds(frames, owners, Pack(f, events, i))
      invariant framed == Pack(f, events, i).framed
    {
      ghost var p := Pack(f, events, i);
      frames, owners, framed := PackNext(f, events[i], i, frames, owners, framed, p);
      i := i + 1;
    }
    if !framed {
      return Unframed;
    }
    PackedIndexes(f, events);
    HeldContents(frames, owners, Pack(f, events, |events|));
    var wire, members := WireEvents(f, events, frames, Pack(f, events, |events|).groups);
    return Framed(wire, members);
  }

  lemma NothingHeld()
    ensures Holds([], map[], Packing([], map[], false))
  {
  }

  lemma HeldContents(frames: seq<WireFrame>, owners: map<string, WireFrame>, p: Packing)
    requires Holds(frames, owners, p)
    ensures |frames| == |p.groups| && forall k :: 0 <= k < |frames| ==> frames[k].Contents() == p.groups[k]
  {
    assert forall k :: 0 <= k < |frames| ==> AllContents(frames)[k] == frames[k].Contents();
  }

  /** Appends a frame that holds group. */
  method Append(frames: seq<WireFrame>, frame: WireFrame, ghost group: Group) returns (more: seq<WireFrame>)
    requires Distinct(frames) && frame !in frames && frame.Contents() == group
    ensures more == frames + [frame] && Distinct(more) && AllContents(more) == AllContents(frames) + [group]
  {
    more := frames + [frame];
    assert forall k :: 0 <= k < |frames| ==> more[k] == frames[k];
  }

  method Grow(frames: seq<WireFrame>, frame: WireFrame, ghost g: nat, i: nat, encoded: seq<Byte>)
    requires Distinct(frames) && g < |frames| && frames[g] == frame
    modifies frame
    ensures AllContents(frames) == old(AllContents(frames))[g := Grown(old(AllContents(frames))[g], i, encoded)]
    ensures |frame.members| == old(|frame.members|) + 1
  {
    frame.Add(i, encoded);
    assert forall k :: 0 <= k < |frames| && k != g ==> frames[k] != frame;
  }

  method PackNext(f: Framer, event: Event, i: nat, frames: seq<WireFrame>, owners: map<string, WireFrame>, framed: bool,
                  ghost p: Packing)
    returns (frames': seq<WireFrame>, owners': map<string, WireFrame>, framed': bool)
    requires Holds(frames, owners, p) && framed == p.framed
    modifies frames
    ensures Holds(frames', owners', PackOne(f, event, i, p)) && framed' == PackOne(f, event, i, p).framed
    ensures forall k :: 0 <= k < |frames'| ==> frames'[k] in frames || fresh(frames'[k])
  {
    hide FrameElement, Grown, AllContents, Distinct;
    frames', owners', framed' := frames, owners, framed;
    var encoded := EncodeElement(f, event);
    if encoded.None? {
      owners' := owners' - {event.subject};
      var alone := new WireFrame([i], 0);
      frames' := Append(frames, alone, Group([i], [], 0));
      return;
    }
    if event.subject in owners {
      var frame := owners[event.subject];
      ghost var g := p.owner[event.subject];
      ContentsAt(frames, g);
      if |frame.members| < f.maxElements && frame.size + |encoded.value| <= f.maxBytes {
        Grow(frames, frame, g, i, encoded.value);
        framed' := framed || |frame.members| > 1;
        GrownLength(p.groups[g], i, encoded.value);
        return;
      }
    }
    var frame := new WireFrame([], MAX_ARRAY_HEADER);
    frame.Add(i, encoded.value);
    owners' := owners'[event.subject := frame];
    frames' := Append(frames, frame, Grown(Group([], [], MAX_ARRAY_HEADER), i, encoded.value));
  }

  lemma ContentsAt(frames: seq<WireFrame>, g: nat)
    requires g < |frames|
    ensures AllContents(frames)[g] == frames[g].Contents()
  {
  }

  lemma GrownLength(group: Group, i: nat, encoded: seq<Byte>)
    ensures |Grown(group, i, encoded).members| == |group.members| + 1
  {
  }

  method WireEvents(f: Framer, events: seq<Event>, frames: seq<WireFrame>, ghost groups: seq<Group>)
    returns (wire: seq<Message>, members: seq<seq<nat>>)
    requires Indexed(events, groups) && |frames| == |groups|
    requires forall k :: 0 <= k < |frames| ==> frames[k].Contents() == groups[k]
    ensures wire == Wires(f, events, groups) && members == Members(groups)
  {
    wire, members := [], [];
    var n := 0;
    while n < |frames|
      invariant 0 <= n <= |frames| && |wire| == n && |members| == n
      invariant forall k :: 0 <= k < n ==> wire[k] == WireOf(f, events, groups[k]) && members[k] == groups[k].members
    {
      var frame := frames[n];
      assert frame.Contents() == groups[n];
      members := members + [frame.members];
      if |frame.members| == 1 {
        var e := ElementOf(events[frame.members[0]]);
        wire := wire + [Message(e.subject, e.headers, e.payload)];
      } else {
        var ids: seq<string> := [];
        var m := 0;
        while m < |frame.members|
          invariant 0 <= m <= |frame.members| && |ids| == m
          invariant forall k :: 0 <= k < m ==> ids[k] == EventId(events[frame.members[k]])
        {
          ids := ids + [EventId(events[frame.members[m]])];
          m := m + 1;
        }
        assert ids == Ids(events, frame.members);
        var data := Frames.Join(frame.encoded);
        wire := wire + [Message(events[frame.members[0]].subject, WireHeaders(f.msgId, ids), data)];
      }
      n := n + 1;
    }
  }

  /** Every event as a message of its own. */
  function Singles(events: seq<Event>): (wire: seq<Message>)
    ensures |wire| == |events|
  {
    seq(|events|, i requires 0 <= i < |events| =>
      Message(events[i].subject, ElementOf(events[i]).headers, events[i].payload))
  }

  /** Gives every event of idxs the result err. */
  method Spread<E>(errs: seq<Option<E>>, idxs: seq<nat>, err: Option<E>) returns (spread: seq<Option<E>>)
    requires forall m :: 0 <= m < |idxs| ==> idxs[m] < |errs|
    ensures |spread| == |errs| && forall i: nat :: i < |errs| ==> spread[i] == if i in idxs then err else errs[i]
  {
    spread := errs;
    var m := 0;
    while m < |idxs|
      invariant 0 <= m <= |idxs| && |spread| == |errs|
      invariant forall i: nat :: i < |errs| ==> spread[i] == if i in idxs[..m] then err else errs[i]
    {
      assert idxs[..m + 1] == idxs[..m] + [idxs[m]];
      spread := spread[idxs[m] := err];
      m := m + 1;
    }
    assert idxs[..m] == idxs;
  }

  /** The wire messages of the events. */
  ghost function WireMessages(f: Framer, events: seq<Event>): seq<Message>
    requires ValidFramer(f)
  {
    match FramingOf(f, events)
    case Unframed => Singles(events)
    case Framed(wire, _) => wire
  }

  /** Event i travels in wire message k. */
  ghost predicate TravelsIn(f: Framer, events: seq<Event>, k: nat, i: nat)
    requires ValidFramer(f)
  {
    match FramingOf(f, events)
    case Unframed => k == i < |events|
    case Framed(_, members) => i < |events| && Behind(members, k, i)
  }

  /** The results of the events when the producer gave answers for the wire messages. Without frames they are
      the answers; with frames each event gets the answer to its message, and none when there is no answer. */
  ghost predicate Spreads<E>(f: Framer, events: seq<Event>, answers: seq<Option<E>>, errs: seq<Option<E>>)
    requires ValidFramer(f)
  {
    match FramingOf(f, events)
    case Unframed => errs == answers
    case Framed(_, members) =>
      && |errs| == |events|
      && forall k: nat, i: nat :: i < |events| && Behind(members, k, i) ==>
           errs[i] == if k < |answers| then answers[k] else None
  }

  /** Publishes the events and gives each the result of the one message it is behind; a message the producer
      gave no result for reads as published. */
  method PublishFramed<E>(f: Framer, events: seq<Event>, publish: seq<Message> -> seq<Option<E>>)
    returns (errs: seq<Option<E>>)
    requires ValidFramer(f)
    ensures Spreads(f, events, publish(WireMessages(f, events)), errs)
  {
    hide Pack;
    var framing := FrameEvents(f, events);
    if framing.Unframed? {
      return publish(Singles(events));
    }
    var wire, members := framing.wire, framing.members;
    var wireErrs := publish(wire);
    PackedIndexes(f, events);
    forall i: nat, a, b | i < |events| && Behind(members, a, i) && Behind(members, b, i) ensures a == b {
      BehindOneMessage(f, events, i);
    }
    errs := seq(|events|, _ => None);
    var position := 0;
    while position < |members|
      invariant 0 <= position <= |members| && |errs| == |events|
      invariant forall k: nat, i: nat :: i < |events| && Behind(members, k, i) ==>
        errs[i] == if k < position && k < |wireErrs| then wireErrs[k] else None
    {
      if position < |wireErrs| {
        forall i: nat | i < |events| ensures i in members[position] <==> Behind(members, position, i) {
        }
        errs := Spread(errs, members[position], wireErrs[position]);
      }
      position := position + 1;
    }
  }

  /** Every event travels in exactly one wire message. */
  lemma EventTravels(f: Framer, events: seq<Event>, i: nat) returns (k: nat)
    requires ValidFramer(f) && i < |events|
    ensures k < |WireMessages(f, events)| && TravelsIn(f, events, k, i)
    ensures forall other: nat :: TravelsIn(f, events, other, i) ==> other == k
  {
    hide Pack;
    if FramingOf(f, events).Unframed? {
      k := i;
    } else {
      BehindOneMessage(f, events, i);
      k :| Behind(FramingOf(f, events).members, k, i);
    }
  }

  /** Every wire message carries an event. */
  lemma MessageCarries(f: Framer, events: seq<Event>, k: nat) returns (i: nat)
    requires ValidFramer(f) && k < |WireMessages(f, events)|
    ensures TravelsIn(f, events, k, i)
  {
    hide Pack;
    if FramingOf(f, events).Unframed? {
      i := k;
    } else {
      PackedIndexes(f, events);
      i := FramingOf(f, events).members[k][0];
    }
  }

  /** Event i has no error in the results, or no result at all: the relay takes it as published. */
  predicate ReadsPublished<E>(errs: seq<Option<E>>, i: nat) {
    i < |errs| ==> errs[i].None?
  }

  /** Every event that reads as published has an answer to its wire message, and one without an error, if and
      only if the producer answered for every wire message. */
  lemma PublishedIsAnsweredIff<E>(f: Framer, events: seq<Event>, answers: seq<Option<E>>, errs: seq<Option<E>>)
    requires ValidFramer(f) && Spreads(f, events, answers, errs)
    ensures (forall k: nat, i: nat :: TravelsIn(f, events, k, i) && ReadsPublished(errs, i) ==>
               k < |answers| && answers[k].None?)
      <==> |WireMessages(f, events)| <= |answers|
  {
    hide Pack;
    if |answers| < |WireMessages(f, events)| {
      var i := MessageCarries(f, events, |answers|);
      assert ReadsPublished(errs, i);
    }
  }
}
