/** Publishing a claimed batch: selection, framing, the producer's answers and the results of the rows, proved
    against the publish step. */
module OutboxPublish {
  import opened BatchTypes
  import opened LatestOnly
  import opened OutboxSteps
  import FramePacking
  import Frames

  /** What the relay reports for one event. */
  datatype PubResult = PubResult(id: nat, err: Option<PubErr>)

  /** The events that are sent among the first n: neither superseded nor refused by the signer. */
  ghost function SentUpTo(cfg: Config, events: seq<Event>, sign: Event -> Option<PubErr>, n: nat): (sent: seq<nat>)
    requires n <= |events|
    ensures forall k :: 0 <= k < |sent| ==> sent[k] < n
  {
    if n == 0 then []
    else if Superseded(events, cfg.prefixes, n - 1) || sign(events[n - 1]).Some? then SentUpTo(cfg, events, sign, n - 1)
    else SentUpTo(cfg, events, sign, n - 1) + [n - 1]
  }

  /** The error of each event: the signer's refusal, or what the producer answered for it; an answer that is
      missing reads as published. */
  ghost predicate ErrsOf(cfg: Config, events: seq<Event>, sign: Event -> Option<PubErr>, got: seq<Option<PubErr>>,
                         errs: seq<Option<PubErr>>)
  {
    var sent := SentUpTo(cfg, events, sign, |events|);
    && |errs| == |events|
    && (forall p :: 0 <= p < |sent| ==> errs[sent[p]] == if p < |got| then got[p] else None)
    && (forall i :: 0 <= i < |events| && i !in sent ==>
          errs[i] == if Superseded(events, cfg.prefixes, i) then None else sign(events[i]))
  }

  lemma {:induction false} SentDistinct(cfg: Config, events: seq<Event>, sign: Event -> Option<PubErr>, n: nat)
    requires n <= |events|
    ensures forall p, q :: 0 <= p < q < |SentUpTo(cfg, events, sign, n)| ==>
      SentUpTo(cfg, events, sign, n)[p] < SentUpTo(cfg, events, sign, n)[q]
  {
    if n > 0 {
      SentDistinct(cfg, events, sign, n - 1);
      var before := SentUpTo(cfg, events, sign, n - 1);
      assert forall p :: 0 <= p < |before| ==> before[p] in before;
    }
  }

  lemma SupersededIs(events: seq<Event>, prefixes: seq<string>, latest: map<string, nat>, i: nat)
    requires i < |events|
    requires forall topic :: topic in latest <==> Listed(events, prefixes, topic, |events|)
    requires forall topic :: topic in latest ==> Wins(events, latest[topic], |events|) && events[latest[topic]].topic == topic
    ensures (events[i].topic in latest && latest[events[i].topic] != i) <==> Superseded(events, prefixes, i)
  {
    var topic := events[i].topic;
    if HasAnyPrefix(topic, prefixes) {
      assert Listed(events, prefixes, topic, |events|);
      OneWinner(events, topic, |events|);
    }
  }

  ghost function Unsent(cfg: Config, events: seq<Event>, sign: Event -> Option<PubErr>, pending: seq<nat>, k: nat): PubResult
    requires k < |events|
  {
    PubResult(events[k].id, if k in pending || Superseded(events, cfg.prefixes, k) then None else sign(events[k]))
  }

  /** The results before the batch is sent, and the events to send. */
  method Select(cfg: Config, events: seq<Event>, sign: Event -> Option<PubErr>)
    returns (results: seq<PubResult>, pending: seq<nat>)
    ensures pending == SentUpTo(cfg, events, sign, |events|) && |results| == |events|
    ensures forall k :: 0 <= k < |events| ==> results[k] == Unsent(cfg, events, sign, pending, k)
  {
    hide Wins, Listed, Superseded;
    var latest := LatestIndexes(events, cfg.prefixes);
    results, pending := [], [];
    var i := 0;
    while i < |events|
      invariant 0 <= i <= |events| && |results| == i
      invariant pending == SentUpTo(cfg, events, sign, i)
      invariant forall k :: 0 <= k < i ==> results[k] == Unsent(cfg, events, sign, pending, k)
    {
      var event := events[i];
      SupersededIs(events, cfg.prefixes, latest, i);
      assert forall k :: 0 <= k < |pending| ==> pending[k] < i;
      if event.topic in latest && latest[event.topic] != i {
        results := results + [PubResult(event.id, None)];
      } else if sign(event).Some? {
        results := results + [PubResult(event.id, sign(event))];
      } else {
        results := results + [PubResult(event.id, None)];
        pending := pending + [i];
      }
      i := i + 1;
    }
  }

  /** How a claimed event reaches the broker: it is signed or refused, becomes a producer event, and is framed. */
  datatype Sender = Sender(sign: Event -> Option<PubErr>, wrap: Event -> FramePacking.Event, framer: FramePacking.Framer)

  /** The producer events of the events at idxs. */
  function Wrapped(sender: Sender, events: seq<Event>, idxs: seq<nat>): (batch: seq<FramePacking.Event>)
    requires forall p :: 0 <= p < |idxs| ==> idxs[p] < |events|
    ensures |batch| == |idxs|
  {
    seq(|idxs|, p requires 0 <= p < |idxs| => sender.wrap(events[idxs[p]]))
  }

  /** What the producer gets. */
  ghost function BatchOf(cfg: Config, events: seq<Event>, sender: Sender): (batch: seq<FramePacking.Event>)
    ensures |batch| == |SentUpTo(cfg, events, sender.sign, |events|)|
  {
    Wrapped(sender, events, SentUpTo(cfg, events, sender.sign, |events|))
  }

  /** Publishes a claimed batch: superseded events count as published, signer errors as failed, and each sent
      event gets the answer to the wire message it travels in; the producer is asked only when there is one. */
  method PublishBatched(cfg: Config, events: seq<Event>, sender: Sender,
                        produce: seq<Frames.Message> -> seq<Option<PubErr>>)
    returns (results: seq<PubResult>, ghost got: seq<Option<PubErr>>, ghost errs: seq<Option<PubErr>>)
    requires FramePacking.ValidFramer(sender.framer)
    ensures var batch := BatchOf(cfg, events, sender);
      batch != [] ==>
        FramePacking.Spreads(sender.framer, batch, produce(FramePacking.WireMessages(sender.framer, batch)), got)
    ensures ErrsOf(cfg, events, sender.sign, got, errs)
    ensures |errs| == |events| && |results| == |events|
    ensures forall i :: 0 <= i < |events| ==>
      results[i] == PubResult(events[i].id, OutcomesOf(cfg, events, errs)[i].err)
  {
    hide Superseded, SentUpTo, FramePacking.Spreads, FramePacking.WireMessages;
    var sign := sender.sign;
    var pending;
    results, pending := Select(cfg, events, sign);
    SentDistinct(cfg, events, sign, |events|);
    SentIs(cfg, events, sign, |events|);
    ghost var before := results;
    var answers: seq<Option<PubErr>> := [];
    if pending != [] {
      answers := FramePacking.PublishFramed(sender.framer, Wrapped(sender, events, pending), produce);
    }
    got := answers;
    var position := 0;
    while position < |pending|
      invariant 0 <= position <= |pending| && |results| == |events|
      invariant forall p :: 0 <= p < |pending| ==>
        results[pending[p]] == PubResult(events[pending[p]].id, if p < position && p < |answers| then answers[p] else None)
      invariant forall k :: 0 <= k < |events| && k !in pending ==> results[k] == before[k]
    {
      var index := pending[position];
      assert index in pending;
      if position < |answers| {
        results := results[index := results[index].(err := answers[position])];
      }
      position := position + 1;
    }
    errs := seq(|events|, k requires 0 <= k < |events| => results[k].err);
    forall i | 0 <= i < |events| ensures results[i] == PubResult(events[i].id, OutcomesOf(cfg, events, errs)[i].err) {
      if i in pending {
        var p :| 0 <= p < |pending| && pending[p] == i;
      }
    }
  }

  /** Every claimed event that is sent and reads as published was answered, and without an error, if and only if
      the producer answered for every wire message of the batch. */
  lemma PublishedIsAnsweredIff(cfg: Config, events: seq<Event>, sender: Sender, answers: seq<Option<PubErr>>,
                               got: seq<Option<PubErr>>, errs: seq<Option<PubErr>>)
    requires FramePacking.ValidFramer(sender.framer) && ErrsOf(cfg, events, sender.sign, got, errs)
    requires FramePacking.Spreads(sender.framer, BatchOf(cfg, events, sender), answers, got)
    ensures var f, batch, sent := sender.framer, BatchOf(cfg, events, sender), SentUpTo(cfg, events, sender.sign, |events|);
      (forall k: nat, p: nat :: p < |sent| && FramePacking.TravelsIn(f, batch, k, p) && errs[sent[p]].None? ==>
         k < |answers| && answers[k].None?)
      <==> |FramePacking.WireMessages(f, batch)| <= |answers|
  {
    hide SentUpTo, FramePacking.Spreads, FramePacking.WireMessages;
    var f, batch, sent := sender.framer, BatchOf(cfg, events, sender), SentUpTo(cfg, events, sender.sign, |events|);
    FramePacking.PublishedIsAnsweredIff(f, batch, answers, got);
    forall k: nat, p: nat | FramePacking.TravelsIn(f, batch, k, p)
      ensures p < |sent| && (FramePacking.ReadsPublished(got, p) <==> errs[sent[p]].None?)
    {
    }
  }

  /** A broker that stored every event it confirmed, and perhaps some it did not, but nothing that was not sent. */
  ghost predicate Stores(events: seq<Event>, sent: seq<nat>, got: seq<Option<PubErr>>, stored: set<nat>)
    requires forall p :: 0 <= p < |sent| ==> sent[p] < |events|
  {
    && (forall p :: 0 <= p < |sent| && p < |got| && got[p].None? ==> events[sent[p]].id in stored)
    && (forall id :: id in stored ==> exists p :: 0 <= p < |sent| && events[sent[p]].id == id)
  }

  /** With a result for every sent event, publishing a batch is one publish step, which accepts exactly what the
      broker stored. */
  lemma AnsweredIsAStep(cfg: Config, s: System, relay: nat, sign: Event -> Option<PubErr>, got: seq<Option<PubErr>>,
                       errs: seq<Option<PubErr>>, stored: set<nat>) returns (step: Step)
    requires WorkOf(s, relay).Claimed?
    requires var events := WorkOf(s, relay).events;
      var sent := SentUpTo(cfg, events, sign, |events|);
      ErrsOf(cfg, events, sign, got, errs) && |sent| <= |got| && Stores(events, sent, got, stored)
    ensures Enabled(cfg, s, step)
    ensures var events := WorkOf(s, relay).events;
      var outcomes, t := OutcomesOf(cfg, events, errs), Apply(cfg, s, step);
      && t.accepted == s.accepted + stored && t.rows == s.rows
      && WorkOf(t, relay) == Settling(Failed(outcomes), Published(outcomes))
  {
    hide SentUpTo, Superseded, OutcomesOf;
    var events := WorkOf(s, relay).events;
    var sent := SentUpTo(cfg, events, sign, |events|);
    SentIs(cfg, events, sign, |events|);
    var confirmed := set i | 0 <= i < |events| && !Superseded(events, cfg.prefixes, i) && errs[i].None? :: events[i].id;
    forall i | 0 <= i < |events| && !Superseded(events, cfg.prefixes, i) && errs[i].None?
      ensures events[i].id in stored
    {
      assert i in sent;
      var p :| 0 <= p < |sent| && sent[p] == i;
    }
    var lost := stored - confirmed;
    forall id | id in lost ensures exists i :: SentInVain(cfg, events, errs, i, id) {
      var p :| 0 <= p < |sent| && events[sent[p]].id == id;
      assert sent[p] in sent;
      assert SentInVain(cfg, events, errs, sent[p], id);
    }
    step := Publish(relay, errs, lost);
    assert Stored(cfg, events, errs, lost) == stored;
  }

  /** The rows that travel in the wire messages which the broker stored. */
  ghost function Carried(events: seq<Event>, sender: Sender, cfg: Config, kept: set<nat>): set<nat>
    requires FramePacking.ValidFramer(sender.framer)
  {
    var sent := SentUpTo(cfg, events, sender.sign, |events|);
    set p | 0 <= p < |sent| && (exists k :: k in kept && FramePacking.TravelsIn(sender.framer, BatchOf(cfg, events, sender), k, p))
      :: events[sent[p]].id
  }

  /** A broker that stored every wire message it confirmed, perhaps some it did not, and no others. */
  ghost predicate Keeps(wire: nat, answers: seq<Option<PubErr>>, kept: set<nat>) {
    && (forall k :: 0 <= k < wire && k < |answers| && answers[k].None? ==> k in kept)
    && (forall k :: k in kept ==> k < wire)
  }

  /** With an answer for every wire message, publishing a batch is one publish step, which accepts exactly the rows
      that the broker stored. Without it no step need be the right one: an unanswered row reads as published. */
  lemma PublishIsAStep(cfg: Config, s: System, relay: nat, sender: Sender, answers: seq<Option<PubErr>>,
                       got: seq<Option<PubErr>>, errs: seq<Option<PubErr>>, kept: set<nat>) returns (step: Step)
    requires WorkOf(s, relay).Claimed? && FramePacking.ValidFramer(sender.framer)
    requires var events := WorkOf(s, relay).events;
      var batch := BatchOf(cfg, events, sender);
      var wire := |FramePacking.WireMessages(sender.framer, batch)|;
      && FramePacking.Spreads(sender.framer, batch, answers, got) && ErrsOf(cfg, events, sender.sign, got, errs)
      && wire <= |answers| && Keeps(wire, answers, kept)
    ensures Enabled(cfg, s, step)
    ensures var events := WorkOf(s, relay).events;
      var outcomes, t := OutcomesOf(cfg, events, errs), Apply(cfg, s, step);
      && t.accepted == s.accepted + Carried(events, sender, cfg, kept) && t.rows == s.rows
      && WorkOf(t, relay) == Settling(Failed(outcomes), Published(outcomes))
  {
    hide SentUpTo, OutcomesOf, Stores, Enabled, Apply, ErrsOf, Carried;
    var events := WorkOf(s, relay).events;
    CarriedIsStored(cfg, events, sender, answers, got, kept);
    step := AnsweredIsAStep(cfg, s, relay, sender.sign, got, errs, Carried(events, sender, cfg, kept));
  }

  lemma CarriedIsStored(cfg: Config, events: seq<Event>, sender: Sender, answers: seq<Option<PubErr>>,
                        got: seq<Option<PubErr>>, kept: set<nat>)
    requires FramePacking.ValidFramer(sender.framer)
    requires var batch := BatchOf(cfg, events, sender);
      var wire := |FramePacking.WireMessages(sender.framer, batch)|;
      && FramePacking.Spreads(sender.framer, batch, answers, got) && wire <= |answers| && Keeps(wire, answers, kept)
    ensures var sent := SentUpTo(cfg, events, sender.sign, |events|);
      |sent| <= |got| && Stores(events, sent, got, Carried(events, sender, cfg, kept))
  {
    hide SentUpTo;
    var f, batch, sent := sender.framer, BatchOf(cfg, events, sender), SentUpTo(cfg, events, sender.sign, |events|);
    var stored := Carried(events, sender, cfg, kept);
    forall p | 0 <= p < |sent| && p < |got| && got[p].None? ensures events[sent[p]].id in stored {
      var k := FramePacking.EventTravels(f, batch, p);
      assert answers[k].None?;
      assert k in kept;
    }
  }

  lemma {:induction false} SentIs(cfg: Config, events: seq<Event>, sign: Event -> Option<PubErr>, n: nat)
    requires n <= |events|
    ensures forall i :: 0 <= i < n ==>
      (i in SentUpTo(cfg, events, sign, n) <==> !Superseded(events, cfg.prefixes, i) && sign(events[i]).None?)
  {
    if n > 0 {
      SentIs(cfg, events, sign, n - 1);
    }
  }

  /** The error of a message whose answer is missing when the time is over. */
  function Late(): PubErr {
    PubErr(Timeout, "context deadline exceeded")
  }

  /** The answers of a drain's publish: one for every message, and a missing answer is a timeout, never a
      success. No answer at all is one that came too late. */
  method PublishWithin(count: nat, answer: Option<seq<Option<PubErr>>>) returns (errs: seq<Option<PubErr>>)
    ensures |errs| == count
    ensures forall i :: 0 <= i < count ==>
      errs[i] == if answer.Some? && i < |answer.value| then answer.value[i] else Some(Late())
    ensures forall i :: 0 <= i < count && errs[i].None? ==>
      answer.Some? && i < |answer.value| && answer.value[i].None?
  {
    errs := seq(count, _ => Some(Late()));
    if answer.Some? {
      var i := 0;
      while i < |errs|
        invariant 0 <= i <= |errs| == count
        invariant forall k :: 0 <= k < i ==> errs[k] == if k < |answer.value| then answer.value[k] else Some(Late())
        invariant forall k :: i <= k < count ==> errs[k] == Some(Late())
      {
        if i < |answer.value| {
          errs := errs[i := answer.value[i]];
        }
        i := i + 1;
      }
    }
  }
}
