/** Latest-only subjects: of several claimed events on one subject only one is published. */
module LatestOnly {
  import opened BatchTypes
  import opened Subjects

  /** A claimed event: its row, its subject, the version header when it parses, the attempts of the row. */
  datatype Event = Event(id: nat, topic: string, version: Option<int>, attempts: int)

  predicate HasAnyPrefix(topic: string, prefixes: seq<string>) {
    exists k :: 0 <= k < |prefixes| && HasPrefix(topic, prefixes[k])
  }

  /** Every event on the topic among the first n carries a version. */
  ghost predicate AllVersioned(events: seq<Event>, topic: string, n: nat) {
    forall k :: 0 <= k < |events| && k < n && events[k].topic == topic ==> events[k].version.Some?
  }

  /** Event k wins its topic among the first n: the last one of maximum version if all carry a version,
      the last one otherwise. */
  ghost predicate Wins(events: seq<Event>, k: int, n: nat) {
    && 0 <= k < |events| && k < n
    && forall j :: 0 <= j < |events| && j < n && events[j].topic == events[k].topic ==>
         if AllVersioned(events, events[k].topic, n)
         then events[j].version.value < events[k].version.value
              || (events[j].version == events[k].version && j <= k)
         else j <= k
  }

  /** An event that is closed without being published. */
  ghost predicate Superseded(events: seq<Event>, prefixes: seq<string>, i: nat)
    requires i < |events|
  {
    HasAnyPrefix(events[i].topic, prefixes) && !Wins(events, i, |events|)
  }

  datatype Candidate = Candidate(index: nat, version: int, allVersion: bool)

  ghost predicate Tracks(events: seq<Event>, topic: string, n: nat, c: Candidate) {
    && Wins(events, c.index, n)
    && events[c.index].topic == topic
    && (c.allVersion <==> AllVersioned(events, topic, n))
    && (c.allVersion ==> events[c.index].version == Some(c.version))
  }

  /** Some latest-only event among the first n is on the topic. */
  ghost predicate Listed(events: seq<Event>, prefixes: seq<string>, topic: string, n: nat) {
    exists k :: 0 <= k < |events| && k < n && events[k].topic == topic && HasAnyPrefix(topic, prefixes)
  }

  ghost predicate Tracked(events: seq<Event>, prefixes: seq<string>, candidates: map<string, Candidate>, n: nat) {
    forall topic ::
      && (topic in candidates <==> Listed(events, prefixes, topic, n))
      && (topic in candidates ==> Tracks(events, topic, n, candidates[topic]))
  }

  function VersionOf(event: Event): int {
    if event.version.Some? then event.version.value else 0
  }

  /** The winner after one more event of its topic. */
  function Later(event: Event, i: nat, current: Candidate): Candidate {
    var allVersion := current.allVersion && event.version.Some?;
    if !allVersion || VersionOf(event) >= current.version then Candidate(i, VersionOf(event), allVersion)
    else current.(allVersion := allVersion)
  }

  /** One pass over the events: the index of the winner of every latest-only topic. */
  method LatestIndexes(events: seq<Event>, prefixes: seq<string>) returns (indexes: map<string, nat>)
    ensures forall topic :: topic in indexes <==> Listed(events, prefixes, topic, |events|)
    ensures forall topic :: topic in indexes ==>
      Wins(events, indexes[topic], |events|) && events[indexes[topic]].topic == topic
  {
    hide Tracks, Wins, Listed;
    var candidates: map<string, Candidate> := map[];
    NothingTracked(events, prefixes);
    var i := 0;
    while i < |events|
      invariant 0 <= i <= |events|
      invariant Tracked(events, prefixes, candidates, i)
    {
      var event := events[i];
      OthersKeep(events, prefixes, i);
      if HasAnyPrefix(event.topic, prefixes) {
        if event.topic !in candidates {
          FirstOfTopic(events, prefixes, i);
          candidates := candidates[event.topic := Candidate(i, VersionOf(event), event.version.Some?)];
        } else {
          var current := candidates[event.topic];
          LaterOfTopic(events, prefixes, i, current);
          var next := current.(allVersion := current.allVersion && event.version.Some?);
          if !next.allVersion || VersionOf(event) >= current.version {
            next := next.(index := i, version := VersionOf(event));
          }
          assert next == Later(event, i, current);
          candidates := candidates[event.topic := next];
        }
      }
      i := i + 1;
    }
    TrackedWin(events, prefixes, candidates);
    indexes := map topic | topic in candidates :: candidates[topic].index;
  }

  lemma NothingTracked(events: seq<Event>, prefixes: seq<string>)
    ensures Tracked(events, prefixes, map[], 0)
  {
  }

  lemma TrackedWin(events: seq<Event>, prefixes: seq<string>, candidates: map<string, Candidate>)
    requires Tracked(events, prefixes, candidates, |events|)
    ensures forall topic :: topic in candidates ==>
      Wins(events, candidates[topic].index, |events|) && events[candidates[topic].index].topic == topic
  {
  }

  /** One more event changes nothing for the other topics, and nothing when it is not latest-only. */
  lemma OthersKeep(events: seq<Event>, prefixes: seq<string>, i: nat)
    requires i < |events|
    ensures forall topic, c :: topic != events[i].topic && Tracks(events, topic, i, c) ==> Tracks(events, topic, i + 1, c)
    ensures forall topic :: topic != events[i].topic || !HasAnyPrefix(topic, prefixes) ==>
      (Listed(events, prefixes, topic, i + 1) <==> Listed(events, prefixes, topic, i))
    ensures HasAnyPrefix(events[i].topic, prefixes) ==> Listed(events, prefixes, events[i].topic, i + 1)
    ensures !HasAnyPrefix(events[i].topic, prefixes) ==> !Listed(events, prefixes, events[i].topic, i)
  {
  }

  lemma FirstOfTopic(events: seq<Event>, prefixes: seq<string>, i: nat)
    requires i < |events| && HasAnyPrefix(events[i].topic, prefixes) && !Listed(events, prefixes, events[i].topic, i)
    ensures Tracks(events, events[i].topic, i + 1, Candidate(i, VersionOf(events[i]), events[i].version.Some?))
  {
    assert forall k :: 0 <= k < i ==> events[k].topic != events[i].topic;
  }

  lemma LaterOfTopic(events: seq<Event>, prefixes: seq<string>, i: nat, current: Candidate)
    requires i < |events| && Tracks(events, events[i].topic, i, current)
    ensures Tracks(events, events[i].topic, i + 1, Later(events[i], i, current))
  {
  }

  /** Every topic has exactly one winner. */
  lemma {:induction false} OneWinner(events: seq<Event>, topic: string, n: nat)
    requires n <= |events| && exists k :: 0 <= k < n && events[k].topic == topic
    ensures exists k :: Wins(events, k, n) && events[k].topic == topic
    ensures forall j, k :: Wins(events, j, n) && Wins(events, k, n) && events[j].topic == events[k].topic ==> j == k
  {
    var c := FindWinner(events, topic, n);
  }

  lemma {:induction false} FindWinner(events: seq<Event>, topic: string, n: nat) returns (c: Candidate)
    requires n <= |events| && exists k :: 0 <= k < n && events[k].topic == topic
    ensures Tracks(events, topic, n, c)
  {
    var last := n - 1;
    if exists k :: 0 <= k < last && events[k].topic == topic {
      c := FindWinner(events, topic, last);
      if events[last].topic == topic {
        LaterOfTopic(events, [], last, c);
        c := Later(events[last], last, c);
      } else {
        OthersKeep(events, [], last);
      }
    } else {
      assert events[last].topic == topic;
      c := Candidate(last, VersionOf(events[last]), events[last].version.Some?);
    }
  }

  /** A superseded event has a winner of its topic in the same list, which is not superseded. It is of a newer version, or of
      the same one and behind it, if every event of the topic has a version, and behind it otherwise. */
  lemma SupersededHasWinner(events: seq<Event>, prefixes: seq<string>, i: nat) returns (k: nat)
    requires i < |events| && Superseded(events, prefixes, i)
    ensures k < |events| && events[k].topic == events[i].topic && !Superseded(events, prefixes, k)
    ensures if forall j :: 0 <= j < |events| && events[j].topic == events[i].topic ==> events[j].version.Some?
            then events[i].version.value < events[k].version.value || (events[i].version == events[k].version && i < k)
            else i < k
  {
    var c := FindWinner(events, events[i].topic, |events|);
    k := c.index;
  }
}
